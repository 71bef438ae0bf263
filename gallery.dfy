/**
 * The carousel state of the image gallery modal: a current image index over a
 * list of `n` images, moved by "next", "previous", a direct jump to a
 * thumbnail and the arrow keys, plus the slide direction derived from the
 * previous index. The pure updater expressions are functions; the component,
 * whose event handlers and effects overwrite its state, is the class
 * `GalleryModal`.
 */
module ImageGallery {

  import opened Arith
  import opened Wrappers

  /**
   * JavaScript's `%` on integers: the quotient is truncated toward zero, so the
   * remainder takes the sign of the dividend (unlike Dafny's Euclidean `%`).
   */
  function JsRem(a: int, b: int): (r: int)
    requires b > 0
    ensures -b < r < b
    ensures a > 0 ==> r >= 0
    ensures a < 0 ==> r <= 0
    ensures (a - r) % b == 0
  {
    if a >= 0 then
      DivModUnique(a - a % b, b, a / b, 0);
      a % b
    else
      DivModUnique(a + (-a) % b, b, -((-a) / b), 0);
      -((-a) % b)
  }

  /** `goToNext`'s updater: `(prev + 1) % n`, skipped on an empty list. */
  function Next(index: int, n: nat): (r: int)
    ensures n == 0 ==> r == index
    ensures 0 <= index < n ==> r == (if index == n - 1 then 0 else index + 1)
    ensures n > 0 && index >= -1 ==> 0 <= r < n
  {
    if n > 0 then JsRem(index + 1, n) else index
  }

  /** `goToPrevious`'s updater: `(prev - 1 + n) % n`, skipped on an empty list. */
  function Previous(index: int, n: nat): (r: int)
    ensures n == 0 ==> r == index
    ensures 0 <= index < n ==> r == (if index == 0 then n - 1 else index - 1)
    ensures n > 0 && index >= 1 - n ==> 0 <= r < n
  {
    if n > 0 then JsRem(index - 1 + n, n) else index
  }

  /** `goToImage(k)`: the index becomes `k` if it names an image, else nothing changes. */
  function Jump(index: int, k: int, n: nat): (r: int)
    ensures 0 <= k < n ==> r == k
    ensures !(0 <= k < n) ==> r == index
  {
    if 0 <= k < n then k else index
  }

  /** The index the open-time effect sets: `min(initialIndex, n > 0 ? n - 1 : 0)`. */
  function OpenIndex(initial: int, n: nat): (r: int)
    ensures r <= initial
    ensures n > 0 ==> r <= n - 1 && (r == initial || r == n - 1)
    ensures n == 0 ==> r <= 0 && (r == initial || r == 0)
    ensures 0 <= initial && n > 0 ==> 0 <= r < n
    ensures 0 <= initial < n ==> r == initial
  {
    Min(initial, if n > 0 then n - 1 else 0)
  }

  /** The slide direction and the index it was last computed from (`prevImageIndexRef`). */
  datatype Tracking = Tracking(prevIndex: int, direction: int)

  /**
   * The direction-tracking effect, run after the index has changed: a new index
   * gives direction 1 when it is larger than the previous one and -1 otherwise,
   * and becomes the new previous index; an unchanged index changes nothing.
   */
  function Track(t: Tracking, current: int): (r: Tracking)
    ensures r.prevIndex == current
    ensures current > t.prevIndex ==> r.direction == 1
    ensures current < t.prevIndex ==> r.direction == -1
    ensures current == t.prevIndex ==> r == t
  {
    if current != t.prevIndex then
      Tracking(current, if current > t.prevIndex then 1 else -1)
    else t
  }

  /** What a key press asks for. */
  datatype Action = ShowNext | ShowPrevious | Close | Ignore

  /** `handleKeyDown`: nothing while closed; otherwise the two arrows and Escape. */
  function Dispatch(isOpen: bool, key: string): (a: Action)
    ensures !isOpen ==> a == Ignore
    ensures isOpen ==> (a == ShowNext <==> key == "ArrowRight")
    ensures isOpen ==> (a == ShowPrevious <==> key == "ArrowLeft")
    ensures isOpen ==> (a == Close <==> key == "Escape")
  {
    if !isOpen then Ignore
    else if key == "ArrowRight" then ShowNext
    else if key == "ArrowLeft" then ShowPrevious
    else if key == "Escape" then Close
    else Ignore
  }

  /**
   * What one render produces: nothing while closed; nothing, and a close
   * request, when opened on an empty list; otherwise the image at the current
   * index (absent when the index names none) and, with more than one image,
   * the arrows and the thumbnail strip.
   */
  datatype Screen = Hidden | CloseEmpty | Showing(index: int, image: Option<string>, controls: bool)

  /**
   * The screen rendered from the props `isOpen` and `images` and the index
   * state, as the component's body returns it.
   */
  function ScreenOf(isOpen: bool, images: seq<string>, index: int): (s: Screen)
    ensures s == Hidden <==> !isOpen
    ensures s == CloseEmpty <==> isOpen && |images| == 0
    ensures s.Showing? ==> s.index == index && s.controls == (|images| > 1)
    ensures s.Showing? ==> (s.image.Some? <==> 0 <= index < |images|)
    ensures s.Showing? && s.image.Some? ==> s.image.value == images[index]
  {
    if !isOpen then Hidden
    else if |images| == 0 then CloseEmpty
    else Showing(index, if 0 <= index < |images| then Some(images[index]) else None, |images| > 1)
  }

  /** The `initialIndex` prop after its default: an omitted index is 0. */
  function DefaultIndex(initialIndex: Option<int>): (i: int)
    ensures initialIndex == None ==> i == 0
    ensures initialIndex.Some? ==> i == initialIndex.value
  {
    if initialIndex.Some? then initialIndex.value else 0
  }

  /** `k` presses of "next" on a list of `n` images. */
  function NextTimes(index: int, n: nat, k: nat): int
  {
    if k == 0 then index else Next(NextTimes(index, n, k - 1), n)
  }

  /** Next and previous undo each other, in either order, on a valid index. */
  lemma NextPreviousInverse(i: int, n: nat)
    requires 0 <= i < n
    ensures Previous(Next(i, n), n) == i
    ensures Next(Previous(i, n), n) == i
  {
  }

  /** Adding one before or after reducing modulo `n` gives the same remainder. */
  lemma ModSucc(x: int, n: int)
    requires x >= 0 && n > 0
    ensures (x % n + 1) % n == (x + 1) % n
  {
    var q, r := x / n, x % n;
    MulSucc(q, n);
    if r == n - 1 {
      DivModUnique(x + 1, n, q + 1, 0);
      DivModUnique(r + 1, n, 1, 0);
    } else {
      DivModUnique(x + 1, n, q, r + 1);
      DivModUnique(r + 1, n, 0, r + 1);
    }
  }

  /** Pressing "next" `k` times from a valid index moves it `k` places round the cycle. */
  lemma {:induction false} NextTimesIsRotation(i: int, n: nat, k: nat)
    requires 0 <= i < n
    ensures NextTimes(i, n, k) == (i + k) % n
  {
    if k > 0 {
      NextTimesIsRotation(i, n, k - 1);
      ModSucc(i + k - 1, n);
    }
  }

  /** Pressing "next" once per image returns to the starting image. */
  lemma NextCycle(i: int, n: nat)
    requires 0 <= i < n
    ensures NextTimes(i, n, n) == i
  {
    NextTimesIsRotation(i, n, n);
    DivModUnique(i + n, n, 1, i);
  }

  /**
   * The slide direction of each move on a valid index: "next" slides forward
   * except when it wraps from the last image to the first, "previous" slides
   * backward except when it wraps from the first to the last, and on a single
   * image neither changes the tracking.
   */
  lemma MoveDirections(i: int, n: nat, d: int)
    requires 0 <= i < n
    ensures n > 1 ==> Track(Tracking(i, d), Next(i, n)).direction == (if i == n - 1 then -1 else 1)
    ensures n > 1 ==> Track(Tracking(i, d), Previous(i, n)).direction == (if i == 0 then 1 else -1)
    ensures n == 1 ==> Track(Tracking(i, d), Next(i, n)) == Tracking(i, d)
    ensures n == 1 ==> Track(Tracking(i, d), Previous(i, n)) == Tracking(i, d)
  {
  }

  /**
   * The modal component. `isOpen`, `images` and `initialIndex` are its props;
   * `index` is `currentImageIndex`, `direction` the slide direction state and
   * `prevIndex` the ref `prevImageIndexRef`; `closeCalls` counts the calls of
   * the parent's `onClose`, and `shown` is the screen of the last render React
   * committed. Every event method ends after its state update and the
   * direction-tracking effect; the renders that follow (one for a changed
   * index, one more for a changed direction) are calls of `Render`.
   */
  class GalleryModal {
    var isOpen: bool
    var images: seq<string>
    var initialIndex: int
    var index: int
    var prevIndex: int
    var direction: int
    var closeCalls: nat
    var shown: Screen

    /**
     * After every commit the tracking has caught up with the index, the
     * direction is -1, 0 or 1, and an open modal with a non-negative initial
     * index over a non-empty list points at an image.
     */
    ghost predicate Valid()
      reads this
    {
      && prevIndex == index
      && -1 <= direction <= 1
      && (isOpen && |images| > 0 && initialIndex >= 0 ==> 0 <= index < |images|)
    }

    function Tracked(): Tracking
      reads this
    {
      Tracking(prevIndex, direction)
    }

    /** The screen the current state renders. */
    function View(): Screen
      reads this
    {
      ScreenOf(isOpen, images, index)
    }

    /**
     * Mounting: the first render commits the unclamped initial index (calling
     * `onClose` when open on an empty list); then the open-time effect clamps
     * the index and the tracking effect follows it.
     */
    constructor (isOpen: bool, images: seq<string>, initialIndex: Option<int>)
      ensures Valid()
      ensures this.isOpen == isOpen && this.images == images
      ensures this.initialIndex == DefaultIndex(initialIndex)
      ensures shown == ScreenOf(isOpen, images, DefaultIndex(initialIndex))
      ensures closeCalls == (if shown == CloseEmpty then 1 else 0)
      ensures index == (if isOpen then OpenIndex(DefaultIndex(initialIndex), |images|)
                        else DefaultIndex(initialIndex))
      ensures Tracked() == Track(Tracking(DefaultIndex(initialIndex), 0), index)
    {
      var start := DefaultIndex(initialIndex);
      this.isOpen := isOpen;
      this.images := images;
      this.initialIndex := start;
      shown := ScreenOf(isOpen, images, start);
      closeCalls := if ScreenOf(isOpen, images, start) == CloseEmpty then 1 else 0;
      index := if isOpen then OpenIndex(start, |images|) else start;
      new;
      var t := Track(Tracking(start, 0), index);
      prevIndex, direction := t.prevIndex, t.direction;
    }

    /** The direction-tracking effect. */
    method TrackDirection()
      modifies this`prevIndex, this`direction
      ensures Tracked() == Track(old(Tracked()), index)
    {
      if index != prevIndex {
        direction := if index > prevIndex then 1 else -1;
        prevIndex := index;
      }
    }

    /** `goToNext`. */
    method GoToNext()
      requires Valid()
      modifies this`index, this`prevIndex, this`direction
      ensures Valid()
      ensures index == Next(old(index), |images|)
      ensures Tracked() == Track(old(Tracked()), index)
    {
      index := Next(index, |images|);
      TrackDirection();
    }

    /** `goToPrevious`. */
    method GoToPrevious()
      requires Valid()
      modifies this`index, this`prevIndex, this`direction
      ensures Valid()
      ensures index == Previous(old(index), |images|)
      ensures Tracked() == Track(old(Tracked()), index)
    {
      index := Previous(index, |images|);
      TrackDirection();
    }

    /** `goToImage(k)`, the thumbnail click. */
    method GoToImage(k: int)
      requires Valid()
      modifies this`index, this`prevIndex, this`direction
      ensures Valid()
      ensures index == Jump(old(index), k, |images|)
      ensures 0 <= k < |images| ==> index == k
      ensures !(0 <= k < |images|) ==> index == old(index) && Tracked() == old(Tracked())
      ensures Tracked() == Track(old(Tracked()), index)
    {
      index := Jump(index, k, |images|);
      TrackDirection();
    }

    /** `handleKeyDown` for a key named `key`. */
    method KeyDown(key: string)
      requires Valid()
      modifies this`index, this`prevIndex, this`direction, this`closeCalls
      ensures Valid()
      ensures index == (match Dispatch(isOpen, key)
                        case ShowNext => Next(old(index), |images|)
                        case ShowPrevious => Previous(old(index), |images|)
                        case _ => old(index))
      ensures Tracked() == Track(old(Tracked()), index)
      ensures closeCalls == old(closeCalls) + (if Dispatch(isOpen, key) == Close then 1 else 0)
    {
      match Dispatch(isOpen, key)
      case ShowNext => GoToNext();
      case ShowPrevious => GoToPrevious();
      case Close => closeCalls := closeCalls + 1;
      case Ignore =>
    }

    /** A click on the close button, which is on screen while the modal's content is shown. */
    method ClickClose()
      requires shown.Showing?
      modifies this`closeCalls
      ensures closeCalls == old(closeCalls) + 1
    {
      closeCalls := closeCalls + 1;
    }

    /**
     * A render with new props. React first commits that render with the index
     * as it was (calling `onClose` when open on an empty list). The open-time
     * effect then re-runs when `isOpen`, `initialIndex` or the `images` array
     * object changed since the last render (`newArray`: React compares the
     * array by identity, so an equal but re-created array counts as a
     * change); it only acts while open.
     */
    method SetProps(isOpen': bool, images': seq<string>, initialIndex': Option<int>, newArray: bool)
      requires Valid()
      requires images' != images ==> newArray
      modifies this`isOpen, this`images, this`initialIndex, this`index, this`prevIndex,
               this`direction, this`closeCalls, this`shown
      ensures Valid()
      ensures isOpen == isOpen' && images == images' && initialIndex == DefaultIndex(initialIndex')
      ensures shown == ScreenOf(isOpen', images', old(index))
      ensures closeCalls == old(closeCalls) + (if shown == CloseEmpty then 1 else 0)
      ensures var rerun := isOpen' != old(isOpen) || DefaultIndex(initialIndex') != old(initialIndex)
                           || newArray;
              index == (if rerun && isOpen' then OpenIndex(DefaultIndex(initialIndex'), |images'|)
                        else old(index))
      ensures Tracked() == Track(old(Tracked()), index)
    {
      var start := DefaultIndex(initialIndex');
      var rerun := isOpen' != isOpen || start != initialIndex || newArray;
      isOpen, images, initialIndex := isOpen', images', start;
      shown := View();
      if shown == CloseEmpty {
        closeCalls := closeCalls + 1;
      }
      if rerun && isOpen {
        index := OpenIndex(initialIndex, |images|);
      }
      TrackDirection();
    }

    /** A render: it commits `View()`, and an open modal with no images calls `onClose`. */
    method Render() returns (s: Screen)
      modifies this`closeCalls, this`shown
      ensures s == View() && shown == s
      ensures closeCalls == old(closeCalls) + (if s == CloseEmpty then 1 else 0)
    {
      s := View();
      shown := s;
      if s == CloseEmpty {
        closeCalls := closeCalls + 1;
      }
    }

    /**
     * For an open modal opened at a non-negative index over a non-empty list,
     * the next render (`View()`, not the last committed `shown`) shows the
     * image at the index.
     */
    lemma ShowsAnImage()
      requires Valid() && isOpen && initialIndex >= 0 && |images| > 0
      ensures View().Showing? && View().image == Some(images[index])
    {
    }
  }
}
