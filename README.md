# Portfolio site: gallery carousel, chunking and section reveal

This project models the three pieces of logic in a personal portfolio web site
(a Next.js/React front end). The rest of the site is declarative layout and
animation configuration, plus the WebGL effects and DOM listeners listed under
"## Left out".

- **Image gallery modal** (`components/image-gallery-modal.tsx`, module
  `ImageGallery`). The modal keeps a current image index over a list of `n`
  images. It moves the index in four ways:
  - on open it clamps the initial index;
  - "next" and "previous" wrap round the list;
  - a thumbnail click jumps to an index, and an out-of-range index is ignored;
  - ArrowRight, ArrowLeft and Escape dispatch to next, previous and close.

  A slide direction (±1) is recomputed from the previous index whenever the
  index changes. An open modal with no images asks its parent to close it.
  - The index updates are pure functions: `Next`, `Previous`, `Jump`, `OpenIndex`, `Track` and `Dispatch`.
    JavaScript's truncating `%` is modelled as `JsRem`.
  - The component is the class `GalleryModal`. Its fields are the props (`isOpen`, `images`, `initialIndex`),
    the React state (`index`, `direction`), the ref `prevIndex` (`prevImageIndexRef`, whose writes schedule no render), the number of `onClose` calls (`closeCalls`)
    and the screen of the last committed render (`shown`). An omitted `initialIndex` is passed as `None` and becomes 0.
  - Each event method does the state update and then the direction-tracking effect. The renders that follow are calls of `Render`.
  - Mounting and a change of props first commit a render with the index as it was, before the open-time clamp runs.
    That render can name a missing image: mounting open on 3 images at `initialIndex` 5 first shows index 5 with no image.
  - `Valid()` is the invariant every method keeps: the tracking has caught up, the direction is in {-1, 0, 1},
    and an open modal over a non-empty list with a non-negative initial index points at an image.
- **`chunkArray`** (`components/portfolio.tsx`, module `Portfolio`) splits a
  list into consecutive slices of `chunkSize`. `ChunkArray` is
  `chunkArray`'s loop. It is proved equal to the recursive definition `Chunks`. Further lemmas
  prove that flattening the chunks gives back the input, that every chunk but
  the last is full, and that there are ⌈n / chunkSize⌉ chunks.
- **Section reveal** (`components/section-reveal.tsx`, module `SectionReveal`).
  It maps the `direction` prop to hidden and visible variants, with a default
  branch. It also covers the prop defaults, the in-view choice of animation
  target, and the `once: true` latch of the in-view hook.

`Arith` and `Wrappers` are helper modules. `Arith` holds the minimum and facts
about division by a variable divisor. `Wrappers` holds an `Option` type.

## Model

| member | source | states |
|---|---|---|
| ImageGallery.JsRem | components/image-gallery-modal.tsx:36-42 | the JavaScript remainder: magnitude below the divisor, sign of the dividend, and dividend minus remainder a multiple of the divisor |
| ImageGallery.Next | components/image-gallery-modal.tsx:34-38 | on an empty list the index is unchanged; on a valid index it moves one on and wraps from n−1 to 0; from any index ≥ −1 on a non-empty list it lands in [0, n) |
| ImageGallery.Previous | components/image-gallery-modal.tsx:40-44 | on an empty list the index is unchanged; on a valid index it moves one back and wraps from 0 to n−1; from any index ≥ 1−n on a non-empty list it lands in [0, n) |
| ImageGallery.Jump | components/image-gallery-modal.tsx:46-50 | the index becomes k exactly when 0 ≤ k < n; otherwise it is unchanged |
| ImageGallery.OpenIndex | components/image-gallery-modal.tsx:27-32 | the clamp is never above the initial index and is either the initial index or the upper bound (n−1, or 0 for an empty list); a non-negative initial index lands in [0, n); one already below n is kept |
| ImageGallery.Track | components/image-gallery-modal.tsx:144-152 | after the effect the previous index is the current one; a larger index gives direction 1, a smaller one −1, an unchanged one leaves the tracking as it was |
| ImageGallery.Dispatch | components/image-gallery-modal.tsx:55-65 | while closed every key is ignored; while open ArrowRight means next, ArrowLeft previous and Escape close, each if and only if, so any other key is ignored |
| ImageGallery.NextPreviousInverse | components/image-gallery-modal.tsx:34-44 | on a valid index, previous after next and next after previous both restore the index |
| ImageGallery.NextTimesIsRotation | components/image-gallery-modal.tsx:36 | k presses of next from a valid index give (i + k) mod n |
| ImageGallery.NextCycle | components/image-gallery-modal.tsx:36 | n presses of next return to the starting index |
| ImageGallery.MoveDirections | components/image-gallery-modal.tsx:144-152 | with more than one image, next slides forward except when wrapping from n−1 to 0 (direction −1), and previous slides backward except when wrapping from 0 to n−1 (direction 1); with one image neither changes the tracking |
| ImageGallery.DefaultIndex | components/image-gallery-modal.tsx:19 | an omitted initialIndex is 0; a given one is kept |
| ImageGallery.ScreenOf | components/image-gallery-modal.tsx:155-244 | nothing while closed; the close-and-render-nothing case exactly for an open empty list; otherwise the given index, its image only when the index names one, and the controls exactly when there is more than one image |
| ImageGallery.GalleryModal.constructor | components/image-gallery-modal.tsx:16-32 | the initialIndex default applies; the first committed render shows the unclamped initial index and calls onClose once exactly when open on an empty list; then the open-time effect clamps the index when open, direction starts at 0 and is tracked; the invariant holds |
| ImageGallery.GalleryModal.TrackDirection | components/image-gallery-modal.tsx:147-152 | the tracking becomes Track of the old tracking and the current index |
| ImageGallery.GalleryModal.GoToNext | components/image-gallery-modal.tsx:34-38 | the index becomes Next of the old index, the direction is tracked, and the invariant is kept |
| ImageGallery.GalleryModal.GoToPrevious | components/image-gallery-modal.tsx:40-44 | the index becomes Previous of the old index, the direction is tracked, and the invariant is kept |
| ImageGallery.GalleryModal.GoToImage | components/image-gallery-modal.tsx:46-50 | the index becomes k when it names an image; otherwise index and tracking are unchanged; the invariant is kept |
| ImageGallery.GalleryModal.KeyDown | components/image-gallery-modal.tsx:54-72 | performs what Dispatch says: next, previous, one more onClose call, or nothing; the invariant is kept |
| ImageGallery.GalleryModal.ClickClose | components/image-gallery-modal.tsx:182-188 | a click on the close button, present while the modal's content is shown, calls onClose once |
| ImageGallery.GalleryModal.SetProps | components/image-gallery-modal.tsx:26-32 | a render with new props: it first commits the new props with the old index (calling onClose once exactly when open on an empty list); then the open-time clamp re-runs while open exactly when isOpen, initialIndex or the images array object changed; the invariant is kept |
| ImageGallery.GalleryModal.Render | components/image-gallery-modal.tsx:155-164 | the render commits ScreenOf of the current state and calls onClose once exactly when open on an empty list |
| ImageGallery.GalleryModal.ShowsAnImage | components/image-gallery-modal.tsx:27-31 | an open modal over a non-empty list, opened at a non-negative index, has a next render (View, not the last committed `shown`) that shows the image at its index |
| Portfolio.ChunkArray | components/portfolio.tsx:33-39 | the loop's result equals Chunks; it flattens to the input; it has ⌈n / chunkSize⌉ chunks; all chunks but the last are full, and the last is non-empty and at most chunkSize long |
| Portfolio.FlattenChunks | components/portfolio.tsx:33-39 | concatenating the chunks gives back the input exactly |
| Portfolio.ChunkLengths | components/portfolio.tsx:35-36 | every chunk except the last has length chunkSize; the last is non-empty with length ≤ chunkSize |
| Portfolio.ChunkCount | components/portfolio.tsx:35 | the number of chunks is ⌈n / chunkSize⌉, and it is zero exactly for an empty input |
| Portfolio.OffsetIsMultiple | components/portfolio.tsx:35 | after c iterations the loop variable, c steps of chunkSize, is c × chunkSize: a multiple of chunkSize |
| Portfolio.StepKeepsInvariant | components/portfolio.tsx:35-37 | one iteration keeps the loop invariant: i is the iteration count times chunkSize, the result flattens to the input before min(i, n), and the chunks of the rest complete the result to all chunks |
| Portfolio.ExitGivesChunks | components/portfolio.tsx:35-38 | when the loop stops (i ≥ n), the invariant makes the result exactly all the chunks |
| Portfolio.ChunksFrom | components/portfolio.tsx:35-36 | one loop step: the chunks from position i are the clamped slice from i followed by the chunks after it |
| SectionReveal.GetVariants | components/section-reveal.tsx:18-46 | for every direction, hidden has opacity 0 and an offset of ±50; visible has opacity 1 and offset 0 on the same axis; the axis is x exactly for "left" and "right"; the offset is −50 exactly for "down" and "right" |
| SectionReveal.NamedDirections | components/section-reveal.tsx:20-39 | up starts at y 50, down at y −50, left at x 50 and right at x −50 |
| SectionReveal.UnknownIsUp | components/section-reveal.tsx:40-44 | any unrecognised direction gives the same variants as "up" |
| SectionReveal.OppositeDirections | components/section-reveal.tsx:20-39 | down and up share an axis and have opposite offsets, and so do right and left |
| SectionReveal.WithDefaults | components/section-reveal.tsx:14 | an omitted delay is 0 and an omitted direction is "up"; given props are kept |
| SectionReveal.AnimateTarget | components/section-reveal.tsx:53 | the target is "visible" if and only if the section is in view |
| SectionReveal.InViewOnceSomeObservation | components/section-reveal.tsx:16 | with `once: true`, the hook reports in view exactly when some observation so far saw the section |
| SectionReveal.StaysRevealed | components/section-reveal.tsx:16-53 | once the target is "visible" it stays "visible" whatever is observed later |
| SectionReveal.RevealOnScroll | components/section-reveal.tsx:16-53 | before any observation the render animates to hidden; it animates to visible exactly when some observation so far saw the section |
| SectionReveal.RenderStaysRevealed | components/section-reveal.tsx:16-63 | once a render animates to visible, every later render is the same render |

## Left out

- The WebGL effects (`components/hero-webgl-canvas.tsx`, `components/dynamic-glow-circle.tsx`) are left out. They are floating-point shader numerics, foreign WebGL calls and frame or timer scheduling.
- The modal's DOM side effects are left out: the body scroll lock, outside-click detection with its 100 ms timer, and the image rendering and animation. The `imageVariants` offsets are left out too.
- The keyboard listener's registration and removal are left out. `KeyDown` stands for one `keydown` event reaching the current handler.
- `onClose` belongs to the parent. The model records its calls in `closeCalls`. Whether the parent then sets `isOpen` to false is left to it, through `SetProps`.
- ImageGallery.GalleryModal.SetProps: assumes props are never mutated in place (a changed image list is a new array). React compares `images` by identity, so an in-place mutation would not re-run the clamp.
- The console warning on an empty image list is left out, and so is a null `images` prop. The TypeScript type rules out null.
- The index is an integer: a fractional `initialIndex` is not modelled. A negative `initialIndex` is modelled. `Math.min` keeps it negative, so the open modal then shows no image. `JsRem` follows JavaScript's `%` on it.
- React's scheduling of renders and the in-view observer are external. `InViewOnce` abstracts the observer's sequence of "at least a fifth visible" observations.
- SectionReveal.Render: omits the easing curve `[0.22, 1, 0.36, 1]`. It is an animation-library setting with no logic.
- The navbar, scroll progress, custom cursor, model viewer and all static content sections are left out. They are only threshold comparisons on floating-point scroll offsets, DOM wiring or JSX.
- Portfolio.ChunkArray: requires `chunkSize > 0` unless the input is empty. With any other size `chunkArray`'s loop never ends on a non-empty input, so there is no result to model.
- Portfolio.ChunkArray: `chunkSize` is an integer. A fractional `chunkSize` is not modelled: `slice` truncates its arguments, so 2.5 gives the slices [0, 2), [2, 5) and [5, 7).
- The renders that follow an event or the open-time clamp are separate calls of `Render`: one for a changed index, and one more when the tracking effect then changes `direction`, which is React state of its own. React skips a render when no state changed; the model leaves that to the caller. For example, mounting open on an empty list at `initialIndex` 2 renders three times (index clamped to 0, then direction −1), so `onClose` is called three times: once by the constructor and twice by `Render`.
- The rest of `components/portfolio.tsx` is left out. It is UI only, and as written it declares `Portfolio` twice (lines 41 and 54).
