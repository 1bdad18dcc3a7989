# Countryball creator, modelled in Dafny

The Countryball creator is a browser page (`main.js`) for drawing a
"countryball". It draws a flag or an uploaded photo as the background,
cuts it out with a round mask, and lays a template outline and a pair of
eyes on top. This project models the logic of that page and proves its
properties:

- **Search** (`search.dfy`). The flag search matcher `orderedMatch` and
  the list filter built on it. The greedy `indexOf` loop is a method with
  loop invariants. It is proved to decide exactly "the normalised query is
  a subsequence of the normalised name".
- **Geometry** (`geometry.dfy`). The rectangles handed to `drawImage`:
  - the letterbox fit of `drawPreserveToCtx`;
  - the centre-crop cover of `drawImageCover`.

  The arithmetic is exact, over `real`.
- **Compositor** (`compositor.dfy`). The effective (second) `drawCanvas`.
  It is a function from the editor state to the ordered list of drawing
  operations it issues. An interpreter of that list says what each surface
  holds: the visible canvas and the two off-screen canvases.
- **Editor** (`editor.dfy`). The module-level state of the page, as a
  class whose methods are the event handlers and loaders:
  - flip;
  - upload;
  - eye style change and eye sliders;
  - template, eye and flag loading;
  - the flag thumbnail grid with its search box;
  - the search popup.
- **Assets** (`assets.dfy`). The fixed asset tables, the asset paths the
  editor builds, and the store of images that load. Image loading is
  asynchronous in the page; here a load is a lookup in `assets`, a map
  from each asset to the image that loads for it. An asset absent from the
  map is a failed load, which gives `None` where the page stores `null`.
  `Path` gives the path of each asset. `PathInjective` shows that
  different assets are different files, so keying the store by asset is
  the same as keying it by path.

## Model

| member | source | states |
|---|---|---|
| Assets.Opposite | main.js:73 | The flip toggle always changes the side. |
| Assets.EyeCountListed | main.js:95-104 | For the styles with a file list, the `eyeSets` count is the length of that list, so every thumbnail index names a file. |
| Assets.EyeFilesDistinct | main.js:101-104 | No style lists the same eye file twice. |
| Assets.ParsePrinted | main.js:214 | The decimal numeral printed for `eyeIndex + 1` reads back as that number. |
| Assets.NatToStringInjective | main.js:214 | Different numbers print as different numerals. |
| Assets.Load | main.js:31-44 | A load fails, giving no image, exactly when the asset's file is not among those that load. Otherwise it gives that file's image. |
| Assets.EyeAsset | main.js:211-224 | Exactly the first style asks for a numbered file: that of the current side, numbered `eyeIndex + 1`. The other styles ask for list entry `eyeIndex`. A thumbnail index inside the style's count names an existing entry. |
| Assets.Path | main.js:174-332 | Every path the editor loads lies under `assets/`. |
| Assets.EyePathSide | main.js:211-224 | The left and right paths of the same eye thumbnail differ exactly for the first style. |
| Assets.NumberedEyeInjective | main.js:212-216 | A numbered eye path determines its side and its number. |
| Assets.ListedEyeInjective | main.js:221-223 | A listed eye path determines the list entry. |
| Assets.FlagFileInjective | main.js:329-332 | A flag path determines its side and its file name. |
| Assets.PathKind | main.js:174-332 | The character after `assets/` tells eyes, templates and flags apart; for eyes, the style digit follows. |
| Assets.PathInjective | main.js:174-332 | Two assets with the same path are the same asset, across the template, eye and flag loads. |
| Search.LowerChar | main.js:15 | A capital becomes its own small letter, 32 code points on. No capital is left, white space stays white space, and every other character is unchanged. |
| Search.Lower | main.js:15 | `toLowerCase` keeps the length and lower-cases each character in place. |
| Search.RemoveWhitespace | main.js:16 | The result has no white space and is a subsequence of the input. |
| Search.RemoveWhitespaceCounts | main.js:16 | Every character that is not white space stays, as often as it occurs. With the subsequence clause of `RemoveWhitespace`, this fixes the result. |
| Search.NormalizeQuery | main.js:14-16 | The normalised query holds no white space and no capital. |
| Search.NormalizeName | main.js:18-20 | The normalised name is the lower-cased name, shortened by nothing or by a 4- or 5-character extension. |
| Search.StripImageExtension | main.js:20 | At most one trailing `.png`/`.jpg`/`.jpeg`/`.webp` is removed. The name is unchanged exactly when it ends in none of them, and otherwise it is the result plus one of them. |
| Search.IndexOf | main.js:24 | `indexOf` gives a position at or after `from` holding the character, with none before it; or -1 when there is none. |
| Search.OrderedMatch | main.js:13-29 | The greedy loop returns true exactly when the normalised query is a subsequence of the normalised name. |
| Search.GreedyStep | main.js:23-27 | One loop round: no next occurrence means no match; otherwise matching at the first occurrence decides the rest. |
| Search.SkipNonMatching | main.js:24 | Skipping name characters that differ from the next query character does not change the answer. |
| Search.MatchAtHead | main.js:24-26 | When the name starts with the next query character, matching it there loses nothing. |
| Search.MatchesIffPositions | main.js:13-29 | A match is the same as strictly increasing positions of the query's characters in the name. |
| Search.EmptyQueryMatches | main.js:22-28 | A query that is empty after normalisation matches every name. |
| Search.Filter | main.js:301-303 | The filtered list is no longer than the list, and every name in it matches. |
| Search.FilterKeepsMatches | main.js:301-303 | The filtered list is a subsequence of the list, so it keeps the original order. Every kept name matches. Each matching name is kept as often as it occurs in the list, and no other name is kept. |
| Search.FilterPosition | main.js:301-312 | A position in the filtered list is a position of the whole list, and the name there is one of the list's names. |
| Search.FilterEmptyQueryKeepsAll | main.js:604-606 | An empty search keeps the whole list. |
| Search.TrimStart | main.js:296 | Removing leading white space leaves a suffix of the text that does not start with white space. |
| Search.TrimEnd | main.js:296 | Removing trailing white space leaves a prefix of the text that does not end with white space. |
| Search.Trim | main.js:295-297 | `trim()` gives a result no longer than the text that neither starts nor ends with white space. It keeps every other character of the text, in order. |
| Search.CallerNormalisationIsRedundant | main.js:295-297 | The callers' `trim().toLowerCase()` does not change what `orderedMatch` decides. |
| Search.FilterCallerNormalisation | main.js:295-303 | Filtering with the trimmed, lower-cased search text is filtering with the raw text. |
| Search.BrazilMatchesBz | main.js:13-29 | "bz" matches "Brazil.png". |
| Search.BrazilMissesZb | main.js:13-29 | "zb" does not match "Brazil.png", because the order is violated. |
| Search.ArubaMissesBz | main.js:13-29 | "bz" does not match "Aruba.png". |
| Search.FlagSearchExample | main.js:301-303 | Filtering Aruba, Brazil with "bz" keeps only Brazil. |
| Geometry.Letterbox | main.js:481-490 | The rectangle keeps the image's aspect ratio. Its width is `customSize` for a wide image and its height otherwise. It is centred on the canvas centre moved by the offsets. For a non-negative size neither side exceeds it. |
| Geometry.LetterboxFitsFrame | main.js:481-490 | With no offset and `customSize = SIZE` the rectangle lies inside the canvas and spans it along the image's longer side. |
| Geometry.Cover | main.js:496-510 | The crop is the `min(iw, ih)` square centred in the image. It lies inside the image, touches its edge on one axis, and is drawn onto the whole canvas. |
| Compositor.BackgroundOps | main.js:522-526 | The background step draws into the source layer only, once exactly when a flag or a photo is set. |
| Compositor.MaskOps | main.js:529-540 | The mask step works off screen. Without a mask it draws nothing; with one it draws the mask into its layer and then applies it. |
| Compositor.TemplateOps | main.js:546-548 | The template step letterboxes onto the canvas, once exactly when a template is set. |
| Compositor.EyeOps | main.js:551-557 | The eye step draws onto the canvas, once exactly when eyes are set. It draws over the whole frame exactly for the first style. |
| Compositor.DrawCanvas | main.js:511-558 | A redraw starts by clearing the canvas and copies the source layer onto it. `LayerOrder` states the full order. |
| Compositor.LayerOrder | main.js:511-558 | The list length follows from which layers are set. The canvas is cleared first and only then. The source layer is copied exactly once. Before the copy only off-screen layers change; after it only the canvas does. |
| Compositor.BackgroundChoice | main.js:522-526 | The source layer gets a background exactly when a flag or a photo is set. A set flag is letterboxed even over an uploaded photo, and no cover is drawn then. Otherwise the photo is cover-cropped. |
| Compositor.MaskStep | main.js:528-543 | The destination-in cutout happens exactly when a mask is set. The mask is letterboxed into its layer, then applied, and right after that the source layer is copied. |
| Compositor.TemplateStep | main.js:543-548 | Right after the copy comes the full-frame letterboxed template, when one is set. |
| Compositor.EyesLast | main.js:550-557 | The eyes come last and only when set. They go over the whole frame exactly for the first style, and are letterboxed with the adjust offsets and size otherwise. |
| Compositor.FullFrameIgnoresAdjust | main.js:551-556 | With the first eye style the adjust values do not change the operations. |
| Compositor.BackgroundIgnoresEyes | main.js:522-526 | The background operations do not depend on the eyes. |
| Compositor.FlagHidesUpload | main.js:522-526 | While a flag is set the uploaded photo changes nothing. |
| Compositor.ExecuteAppend | main.js:511-558 | Running two operation lists one after the other is running their concatenation. |
| Compositor.PictureStack | main.js:511-558 | From bottom to top the canvas shows: the source layer (the background, cut out by the mask when there is one), then the template, then the eyes. What it showed before does not matter. |
| Compositor.RedrawIdempotent | main.js:511-513 | Drawing twice shows what drawing once shows, and the result does not depend on the previous picture. |
| Compositor.DestinationIn | main.js:537 | A transparent mask pixel leaves nothing, and an opaque one keeps the background pixel. |
| Compositor.DestinationInIgnoresMaskColour | main.js:537 | Only the mask's alpha matters. |
| Editor.Shown | main.js:295-303 | What a grid shows for its search text is the plain filter by that text: the `trim().toLowerCase()` of the callers changes nothing. |
| Editor.EmptySearchShowsAll | main.js:369-373 | An empty search box shows the whole list. |
| Editor.SearchMovesThumbnails | main.js:301-312 | With "bz" over Aruba, Brazil the grid shows only Brazil, so grid position 0 is not list position 0. |
| Editor.Editor.constructor | main.js:54-69 | The initial state: no images, first style and template, adjust (0, 0, 200), left side, empty lists, index 0. |
| Editor.Editor.LoadTemplate | main.js:174-190 | The template and the mask of the selected template are loaded independently, so either can fail alone. A mask cutout is drawn exactly when the mask loaded. |
| Editor.Editor.SelectTemplate | main.js:200-203 | A template thumbnail click selects it and loads its base and mask. |
| Editor.Editor.LoadEyes | main.js:211-231 | The eyes become the selected eye asset of the current style and side, or `None` when that load fails. |
| Editor.Editor.SelectEye | main.js:244-248 | An eye thumbnail click selects it and loads it for the current side. |
| Editor.Editor.LoadFlag | main.js:319-337 | An empty side list clears the flag. Otherwise the flag at `flagIndex` of the side list is loaded; an index past the end fails. |
| Editor.Editor.LoadFlags | main.js:269-287 | The lists come from the manifest, with a missing list read as empty. A failed fetch keeps the lists. The grid is redrawn and the selected flag loaded. |
| Editor.Editor.Flip | main.js:71-86 | The side toggles and the eyes reload. Without a photo the flag reloads and the grid is redrawn; with a photo the flag and grid stay and the background operations are unchanged. |
| Editor.Editor.Upload | main.js:435-450 | The photo is set and the flag cleared, so the background is the photo's cover crop. |
| Editor.Editor.BeginEyeStyleChange | main.js:562-571 | The style is set, the index reset to 0, and the eyes cleared, so no eyes are drawn. |
| Editor.Editor.ChangeEyeStyle | main.js:562-590 | After the style change the first eyes of the new style are loaded. |
| Editor.Editor.SetAdjustX | main.js:417-420 | Sets `adjustX`; with the first style the drawn picture does not change. |
| Editor.Editor.SetAdjustY | main.js:422-425 | Sets `adjustY`; with the first style the drawn picture does not change. |
| Editor.Editor.SetAdjustSize | main.js:427-430 | Sets `adjustSize`; with the first style the drawn picture does not change. |
| Editor.Editor.RenderFlagThumbnails | main.js:289-317 | The grid is redrawn from the current side's list. |
| Editor.Editor.SearchFlags | main.js:338 | Typing in the search box sets the text and redraws the grid. |
| Editor.Editor.ClickFlagThumbnail | main.js:305-312 | As written: a click on grid position `i` sets `flagIndex = i` and loads the `i`-th flag of the whole side list. |
| Editor.Editor.ClickFlagThumbnailIntended | main.js:305-312 | A click selects the flag the thumbnail shows. While the grid is up to date, that flag is at `flagIndex` and is the one loaded. |
| Editor.Editor.SelectByName | main.js:611-617 | A name missing from the side list changes nothing. Otherwise its first occurrence is selected and loaded. |
| Editor.Editor.RenderPopupFlags | main.js:595-606 | The popup lists the thumbnail names that match its search box. |
| Editor.Editor.OpenPopup | main.js:369-373 | The search button empties the popup's box and lists every thumbnail name. |
| Editor.Editor.SearchPopup | main.js:379-381 | Typing in the popup box re-filters the thumbnail names. |
| Editor.Editor.PickPopupFlag | main.js:610-620 | A popup pick looks the name up in the current side's list, as `SelectByName` states. |
| Editor.FlipTwice | main.js:71-86 | Flipping twice restores the side and the whole state `drawCanvas` reads, provided the eyes and flag shown were those the selection loads. |
| Editor.UploadThenPick | main.js:610-620 | A popup pick after an upload shows the flag over the photo, which stays set. "Flag or photo" is therefore not an invariant. |

## Left out

- The DOM: building thumbnails, tabs, showing and hiding the popup and the
  adjust panel, `renderTemplateList` and `renderEyeThumbnails`. The
  thumbnail grids are modelled only as the list of names they show.
- Network and files:
  - `fetch("flags.json")` becomes the `manifest` parameter, where `None` is
    a failed fetch or parse;
  - `showNoInternet` is not modelled;
  - `loadImage` becomes a lookup in the `assets` store;
  - `FileReader` decoding becomes the decoded photo passed to `Upload`;
  - the download button is not modelled.
- Concurrency. Each handler runs to completion before the next one. The
  race between overlapping `await`s in the flip and eye-style handlers is
  not modelled.
- Editor.Editor.ChangeEyeStyle and Editor.Editor.Flip: the `await`
  points are taken as completing in order.
- The first upload handler (main.js:399-413) is not modelled separately.
  It runs beside the second one and its end state (photo set) is contained
  in `Upload`'s.
- The start-up sequence (main.js:462-477) is not modelled as a method. It
  is the constructor followed by `LoadTemplate`, `LoadEyes` and
  `LoadFlags`.
- Dead code is not modelled: the first `drawCanvas` and
  `drawImageCentered` (main.js:117-169), which the later declarations
  replace.
- `drawCanvas`'s early return when the canvas context is missing is not
  modelled.
- `parseInt` of the slider text: the sliders receive integers.
- Browser arithmetic and pixels:
  - the fit arithmetic is exact `real`, not doubles;
  - rasterisation and resampling inside `drawImage` are not modelled, and
    a drawn image is the rectangle it is placed in.
- Compositor.DestinationIn: only the transparent and the opaque mask
  pixel are stated. That the result stays a valid pixel for intermediate
  alpha involves products of reals and is not proved.
- Search.Trim: the contract does not state that the result is exactly the middle slice of the text. It states that the result does not start or end with white space and that it keeps every other character, in order.
- Search.Lower: lower-casing covers ASCII capitals only. `toLowerCase`
  also folds other scripts.
- An unknown eye style value would make `loadEyes` throw. The style
  selector offers only the three styles, so `EyeStyle` has exactly those.
- Editor.Editor.LoadFlag: a `flagIndex` past the end of the list makes
  the path name `undefined`. That load fails, and it is modelled as
  `None`.

## Findings

| source | as written | input that shows it | evidently intended | confidence | as-written member | corrected member |
|---|---|---|---|---|---|---|
| main.js:305-312 | A click on the `i`-th thumbnail of the *filtered* grid sets `flagIndex = i`, an index into the *unfiltered* side list. | Search "bz" over the left list Aruba.png, Brazil.png: the grid shows only Brazil, and clicking it loads Aruba. | Load the flag the thumbnail shows, by looking its name up in the side list as the popup does (main.js:611-616). | not executed | Editor.Editor.ClickFlagThumbnail, Editor.SearchMovesThumbnails | Editor.Editor.ClickFlagThumbnailIntended |
