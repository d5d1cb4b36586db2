# Polaroid-style frame generator: a Dafny model of its frame rules

The generator is a browser page. It frames an uploaded photo in one of two templates, shows it in a slideshow of up to ten uploads, and saves the framed result under a `.jpg` name. This project models the rules in `index.js` that decide what gets drawn and what it is called:

- **Polaroid frame** (`FrameLayout.PolaroidLayoutOf`). The image keeps its size. The frame is `B` on the left, right and top and `3B` at the bottom, where `B` is the border thickness.
- **Normal frame** (`FrameLayout.NormalLayoutOf`). First the bordered size `fullW = imgW + 2B`, `fullH = imgH + 2B` is computed. The bordered ratio `fullW / fullH` is then compared with the target ratio. If it is larger, the canvas width is `fullW` and the height follows from the ratio; otherwise the height is `fullH` and the width follows. The canvas element gets `Math.round` of that exact size. The scale, the drawn size and the centring offsets come from the exact, unrounded size. The arithmetic is exact `real` arithmetic. `Math.round(x)` is `Floor(x + 1/2)`.
- **Aspect tokens** (`Aspect.ParseAspectRatio`): `43`, `32`, `45`, `11`, `34` mean 4/3, 3/2, 4/5, 1 and 3/4. Any other token means 4/3.
- **Template dispatch** (`Template.GenerateTemplate`): `polaroid` draws the polaroid frame and every other id draws the normal frame. The aspect selector is disabled exactly for `polaroid` (`Template.IsAspectDisabled`).
- **Slideshow** (`Slides.Slideshow`): the image list, the shown index and the current file. It covers the upload limit of ten files, the previous/next buttons with wrap-around, and the names a download saves under.
- **Output names** (`FileNames`): `name.replace(/\.[^/.]+$/, '')` removes a final extension. `FileNames.OutputFileName` then appends `_<template>.jpg`.
- **Border thickness** (`Border`): `parseInt(value) || 40`. The parse result is taken as an `Option<int>`, where `None` stands for NaN.

Three behaviours of the code are worth knowing:

- The normal frame compares the *bordered* ratio with the target (index.js:87-91), not the bare image ratio. The model follows the code.
- A zero bordered height makes that comparison divide by zero. JavaScript then yields +Infinity, -Infinity or NaN. Only +Infinity, from a positive bordered width, takes the "match width" branch (`FrameLayout.BorderedWiderThanTarget`).
- The code never says that the normal frame's scale comes out as exactly 1. `FrameLayout.NormalNeverResizes` proves it for every bordered height `imgH + 2B >= 0`. `parseInt` keeps negative borders, so smaller heights can occur. With such a height the scale can drop below 1 (`FrameLayout.NormalShrinksUnderLargeNegativeBorder`), though it need not (`FrameLayout.NormalUnscaledOnNegativeSquare`). It never exceeds 1 for any input (`FrameLayout.NormalNeverEnlarges`).

Two source files that differ only in extension, such as `a.png` and `a.jpeg`, get the same output name (`FileNames.ExtensionOnlyNamesCollide`). So a batch download can hand the archive writer the same entry name twice. What the archive writer does with a repeated name is not part of this model.

Modules, one per file: `Wrappers` (wrappers.dfy), `Aspect` (aspect.dfy), `FrameLayout` (layout.dfy), `Template` (template.dfy), `FileNames` (filenames.dfy), `Slides` (slides.dfy), `Border` (border.dfy).

## Model

| member | source | states |
|---|---|---|
| `Aspect.ParseAspectRatio` | index.js:60-76 | The ratio is positive and one of 4/3, 3/2, 4/5, 1, 3/4; an unrecognised token gives 4/3; a recognised token gives its first digit divided by its second; the ratio is above 1 exactly for the landscape tokens and unrecognised ones, and 1 exactly for `11` |
| `Aspect.IsKnownToken` | index.js:61-71 | Definition only: the five case labels; `Aspect.ParseAspectRatio` and `Aspect.KnownTokensDistinct` state what they select |
| `Aspect.UnknownTokenIsDefault` | index.js:73-74 | Any unrecognised token gives the same ratio as `43` |
| `Aspect.KnownTokensDistinct` | index.js:61-71 | Distinct recognised tokens select distinct ratios |
| `FrameLayout.Round` | index.js:101-102 | `Math.round`: the result is the unique integer in `(x - 1/2, x + 1/2]` |
| `FrameLayout.Min` | index.js:112 | `Math.min`: the result is one of the two arguments and at most both |
| `FrameLayout.PolaroidLayoutOf` | index.js:135-150 | The image is drawn at its own size, with exactly `B` free on the left, right and top and `3B` below it |
| `FrameLayout.PolaroidContained` | index.js:139-150 | For `B >= 0` the canvas is `(imgW + 2B, imgH + 4B)` and the image rectangle lies inside it |
| `FrameLayout.BorderedWiderThanTarget` | index.js:87-91 | For a positive bordered height the comparison holds exactly when `fullW > target * fullH`; for a negative one exactly when `fullW < target * fullH`, since dividing by a negative height flips the inequality |
| `FrameLayout.FullW` | index.js:85 | Definition only: the bordered width `imgW + 2B`, the size the canvas lemmas compare against |
| `FrameLayout.FullH` | index.js:86 | Definition only: the bordered height `imgH + 2B`, the size the canvas lemmas compare against |
| `FrameLayout.NormalCanvas` | index.js:89-99 | One side of the exact canvas is the bordered size; its ratio is stated by `FrameLayout.CanvasHasTargetRatio` |
| `FrameLayout.NormalPlacement` | index.js:101-117 | The layout keeps the exact canvas it is given, and each pixel side is within half a pixel of it |
| `FrameLayout.PlacementFitsCentred` | index.js:107-117 | On any exact canvas the drawn image keeps the image's aspect ratio, fits the canvas less the border on both axes, fills it on one axis, and is centred |
| `FrameLayout.NormalLayoutOf` | index.js:101-102 | Each side of the canvas in pixels is within half a pixel of the exact side |
| `FrameLayout.CanvasHasTargetRatio` | index.js:89-99 | In both branches the exact canvas satisfies `canvasW = canvasH * target`, so `canvasW / canvasH = target` when the height is nonzero |
| `FrameLayout.CanvasCoversBordered` | index.js:91-99 | For `fullH >= 0` the exact canvas is at least the bordered size on both axes, and equals it on the axis that the comparison picks |
| `FrameLayout.PlacementUnscaled` | index.js:108-117 | If the canvas minus the border holds the image and fits it exactly on one axis, the scale is 1 and the image is centred at offsets of at least `B` |
| `FrameLayout.NormalCanvasHasTargetRatio` | index.js:85-99 | The normal layout's exact canvas has exactly the target ratio |
| `FrameLayout.PixelRatioWithinRounding` | index.js:101-102 | A canvas of exact ratio `target` whose sides are each rounded to within half a pixel, as `NormalLayoutOf` guarantees, keeps the ratio within rounding: `pixelW - pixelH * target` lies in `(-(1 + target)/2, (1 + target)/2]` |
| `FrameLayout.NormalPixelRatioWithinRounding` | index.js:85-102 | The normal layout's pixel canvas keeps the target ratio up to rounding: `pixelW - pixelH * target` lies in `(-(1 + target)/2, (1 + target)/2]` |
| `FrameLayout.PixelRatioClose` | index.js:101-102 | Definition only: the `(1 + target)/2` bound on `pixelW - pixelH * target` that `FrameLayout.NormalPixelRatioWithinRounding` proves |
| `FrameLayout.PlacementPixelRatio` | index.js:101-102 | Helper: on any exact canvas of ratio `t` the placement's pixel sides satisfy `FrameLayout.PixelRatioClose` |
| `FrameLayout.PixelRatioOneSideExact` | index.js:91-102 | When one side is exact and the other rounded within half a pixel, `pixelW - pixelH * t` lies in `[-b, b]` with `b = t/2` for `t > 1` and `b = 1/2` otherwise |
| `FrameLayout.PixelRatioTight` | index.js:101-102 | Definition only: the `[-b, b]` bound of `FrameLayout.PixelRatioOneSideExact` on a layout's pixel sides |
| `FrameLayout.PlacementPixelRatioTight` | index.js:101-102 | Helper: on a canvas of ratio `t` with one integer side the placement satisfies `FrameLayout.PixelRatioTight` |
| `FrameLayout.NormalPixelRatioTight` | index.js:85-102 | The normal layout's pixel canvas keeps the target ratio to within `max(1/2, target/2)`, at most 3/4 of a pixel for the offered ratios |
| `FrameLayout.NormalPixelExactOnMatchedSide` | index.js:91-102 | The side set to the bordered size is exact in pixels as well |
| `FrameLayout.NormalCanvasCoversBordered` | index.js:85-99 | For `imgH + 2B >= 0` the canvas is at least `(fullW, fullH)` and equals it on the axis chosen by comparing the bordered ratio with the target |
| `FrameLayout.NormalNeverResizes` | index.js:108-117 | For `imgH + 2B >= 0`: the scale is exactly 1, the drawn size is the image size, the image is centred, and at least `B` stays free on every side |
| `FrameLayout.PlacementNeverEnlarges` | index.js:108-114 | On a canvas with one side equal to the bordered size the scale is at most 1, since that axis fits exactly |
| `FrameLayout.NormalNeverEnlarges` | index.js:85-114 | For every input, negative borders included, the normal frame's scale is at most 1 |
| `FrameLayout.NormalUnscaledOnNegativeSquare` | index.js:85-114 | A 10x10 image with border -10 and ratio 1 keeps scale 1, so a negative bordered height does not always shrink the image |
| `FrameLayout.NormalShrinksUnderLargeNegativeBorder` | index.js:85-114 | A 10x10 image with border -10 and ratio 4/3 gets scale 2/3, so the bound on the bordered height is needed |
| `Template.IsAspectDisabled` | index.js:41-43 | Definition only: the selector is disabled exactly for `polaroid`; `Template.AspectIgnoredWhenDisabled` and `Template.AspectMattersWhenEnabled` state what that means for the frame |
| `Template.GenerateTemplate` | index.js:52-58 | `polaroid` draws the polaroid frame: canvas `(imgW + 2B, imgH + 4B)`, image unscaled at `(B, B)`. Every other template id draws the normal frame of the selected ratio, whose exact canvas has exactly that ratio |
| `Template.AspectIgnoredWhenDisabled` | index.js:41-58 | While the aspect selector is disabled, its value has no effect on the frame |
| `Template.AspectMattersWhenEnabled` | index.js:78-99 | While it is enabled and the bordered height is positive, the 4:3 and 1:1 settings give different frames |
| `Template.UnknownAspectRendersAsDefault` | index.js:60-79 | A frame drawn with an unrecognised aspect token equals the one drawn with `43` |
| `Template.NormalFrameExample` | index.js:82-117 | A 1000x800 image with border 40 at 4:3 matches the height: the canvas is 3520/3 by 880 (1173x880 in pixels) and the image is unscaled at (260/3, 40) |
| `Template.PolaroidFrameExample` | index.js:131-150 | A 500x500 image with border 20 gives a 540x580 canvas with the image at (20, 20) |
| `FileNames.IsExtensionSuffix` | index.js:216 | Definition only: the strings that `\.[^/.]+$` matches at the end of a name; `FileNames.StripExtensionMatchesPattern` relates it to the stripping |
| `FileNames.LastDot` | index.js:216 | Finds the position of the last `.` in a name, or reports that the name has none |
| `FileNames.StripExtension` | index.js:216 | The base name is a prefix of the name |
| `FileNames.StripExtensionMatchesPattern` | index.js:216 | The removed part matches `\.[^/.]+$`, and the name is kept exactly when no suffix of it matches |
| `FileNames.ExtensionSuffixUnique` | index.js:216 | At most one suffix of a name matches the extension pattern |
| `FileNames.StripRemovesMatch` | index.js:216 | When a suffix matches the pattern, exactly that suffix is removed |
| `FileNames.OutputFileName` | index.js:216-217 | The output name starts with the stripped base name and ends in `.jpg` |
| `FileNames.OutputFileNameRoundTrip` | index.js:216-217 | Stripping the extension from an output name gives back `base + "_" + template`, so exactly the appended `.jpg` is removed |
| `FileNames.StripExample` | index.js:239 | `P1150666.jpg` becomes `P1150666`, `holiday.tar.gz` becomes `holiday.tar`, and `.profile` becomes the empty name |
| `FileNames.KeepExample` | index.js:239 | A name with no dot, with a trailing dot, or with a `/` after its last dot is kept |
| `FileNames.ExtensionOnlyNamesCollide` | index.js:216-217 | `a.png` and `a.jpeg` get the same output name |
| `Slides.JsRem` | index.js:197 | JavaScript `%` by a positive divisor: the result is in `[0, n)` for a non-negative dividend and in `(-n, 0]` for a negative one, and the dividend minus the result is a multiple of `n` |
| `Slides.PrevIndex` | index.js:197 | From a non-negative index the previous button gives an index in `[0, n)` |
| `Slides.NextIndex` | index.js:205 | From an index of at least -1 the next button gives an index in `[0, n)` |
| `Slides.NextTimes` | index.js:203-209 | Pressing next any number of times from an index in `[0, n)` stays in `[0, n)` |
| `Slides.StepsStayInRange` | index.js:195-209 | From an index in `[0, n)`, previous and next stay in `[0, n)`; previous wraps from 0 to `n - 1`, and next wraps from `n - 1` to 0 |
| `Slides.PrevNextInverse` | index.js:195-209 | Previous undoes next, and next undoes previous |
| `Slides.NextTimesAdvances` | index.js:203-209 | Pressing next `k <= n` times advances the index by `k`, wrapping around once |
| `Slides.NextCycleReturns` | index.js:203-209 | Pressing next `n` times returns to the shown image |
| `Slides.Slideshow.constructor` | index.js:14-24 | At start-up there are no images, the index is 0, and the current file is the default file if it loaded |
| `Slides.Slideshow.Upload` | index.js:169-189 | More than 10 files are rejected and nothing changes. Otherwise the list is replaced, and a non-empty upload shows its first file at index 0. The slideshow invariant is kept |
| `Slides.Slideshow.Prev` | index.js:195-201 | With no images nothing changes; otherwise the index becomes `(i - 1 + n) % n` and the current file follows it |
| `Slides.Slideshow.Next` | index.js:203-209 | With no images nothing changes; otherwise the index becomes `(i + 1) % n` and the current file follows it |
| `Slides.Slideshow.DownloadNames` | index.js:211-244 | With more than one image, one name per image, in list order, each the image's output name. Otherwise the current file's output name, or an error when there is no current file |
| `Border.BorderFallback` | index.js:257 | The thickness is never 0. A nonzero parse is kept, negatives included. NaN and 0 give 40 |
| `Border.BorderSetting.constructor` | index.js:10 | The initial thickness is the fallback of the initial parse |
| `Border.BorderSetting.OnInput` | index.js:255-259 | A new input replaces the thickness with its fallback, and the thickness stays nonzero |

## Left out

- DOM lookups, event-listener wiring, class toggling and setting `aspect.disabled` (index.js:1-24, 45-50, 158-169). These are page plumbing. The rule they apply is `Template.IsAspectDisabled`.
- Image decoding, `fetch`, `URL.createObjectURL` and the default-image loader (index.js:26-39, 80-81, 125, 129-130, 155, 177-181). These are asynchronous browser I/O. The decoded width and height are parameters and must be positive. The loader's result is the `startFile` parameter of `Slides.Slideshow.constructor`. If the loader finished after an upload, it would set the current file behind the slideshow's back. That asynchronous race is not modelled.
- Painting and encoding (`fillRect`, `drawImage`, `toBlob`, `toDataURL`). These belong to the browser; only the geometry passed to them is modelled. How the canvas element treats a negative or fractional size is not modelled either.
- The archive writer, `saveAs`, and the promise sequencing of the batch download (index.js:211-236). These are a foreign library and asynchronous control flow. `Slides.Slideshow.DownloadNames` keeps only the names the download uses.
- `debounce` and `setTimeout` (index.js:247-260). This is timer scheduling. `Border.BorderSetting.OnInput` is the handler body it delays.
- `parseInt`. It is a JavaScript built-in; its result enters as an `Option<int>`.
- IEEE-754 rounding in the normal frame's divisions. The model uses exact reals, and only `Math.round` is modelled.
- `OUTPUT_WIDTH` and `originalFileName`'s initial value (index.js:11, 13). Nothing reads them in a way that affects a frame.
- `Border.BorderSetting`: its invariant, a nonzero thickness, is what `parseInt(value) || 40` guarantees. The frame functions take the thickness as their `border` parameter and are defined for every integer, so nothing downstream relies on it. The redraw the input handler triggers (index.js:258) is `Template.GenerateTemplate` with the new thickness.
- `FrameLayout.NormalNeverResizes`, `FrameLayout.NormalCanvasCoversBordered`: proved only for `imgH + 2B >= 0`, because with a more negative border the scale can be below 1 (`FrameLayout.NormalShrinksUnderLargeNegativeBorder`). For every input the scale is at most 1 (`FrameLayout.NormalNeverEnlarges`).
