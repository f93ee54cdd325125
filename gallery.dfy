/** The garden gallery: the index of the image shown, moved cyclically over
    the images, and the index of the image shown in the fullscreen dialog,
    which is `null` while the dialog is closed. */
module Gallery {
  import opened Common

  /** `nextImage`'s update (line 24): the last index wraps to the first. */
  function Next(i: int, n: int): int {
    if i == n - 1 then 0 else i + 1
  }

  /** `prevImage`'s update (line 28): the first index wraps to the last. */
  function Prev(i: int, n: int): int {
    if i == 0 then n - 1 else i - 1
  }

  /** The fullscreen "next" update (lines 138-140). `null` is compared with
      the last index, which it never equals, and then coerced to 0 by `+ 1`. */
  function FullscreenNext(prev: Option<int>, n: int): Option<int> {
    if prev == Some(n - 1) then Some(0)
    else Some((if prev.Some? then prev.value else 0) + 1)
  }

  /** The fullscreen "previous" update (lines 125-127); `null - 1` is -1. */
  function FullscreenPrev(prev: Option<int>, n: int): Option<int> {
    if prev == Some(0) then Some(n - 1)
    else Some((if prev.Some? then prev.value else 0) - 1)
  }

  /** `k` steps forward from `i`. */
  function Advance(i: int, n: int, k: nat): int {
    if k == 0 then i else Next(Advance(i, n, k - 1), n)
  }

  /** The indices the gallery can hold: an index of an image, or 0 when
      there is no image (the initial state of line 20). */
  predicate IndexFor(i: int, n: int) {
    if n <= 0 then i == 0 else 0 <= i < n
  }

  /** The gallery's state (lines 20-21). */
  class GardenGallery {
    const images: seq<string>
    var current: int
    var fullscreen: Option<int>

    ghost predicate Valid()
      reads this
    {
      && IndexFor(current, |images|)
      && (fullscreen.Some? ==> IndexFor(fullscreen.value, |images|))
    }

    /** The dialog is open exactly while a fullscreen index is set (line 97). */
    predicate IsOpen()
      reads this
    {
      fullscreen.Some?
    }

    constructor (images: seq<string>)
      ensures Valid()
      ensures this.images == images && current == 0 && fullscreen == None
    {
      this.images := images;
      current := 0;
      fullscreen := None;
    }

    method NextImage()
      requires Valid() && |images| >= 1
      modifies this
      ensures Valid()
      ensures current == Next(old(current), |images|) && fullscreen == old(fullscreen)
    {
      NextInRange(current, |images|);
      current := if current == |images| - 1 then 0 else current + 1;
    }

    method PrevImage()
      requires Valid() && |images| >= 1
      modifies this
      ensures Valid()
      ensures current == Prev(old(current), |images|) && fullscreen == old(fullscreen)
    {
      PrevInRange(current, |images|);
      current := if current == 0 then |images| - 1 else current - 1;
    }

    /** A thumbnail click (line 84). */
    method SelectImage(index: int)
      requires Valid() && 0 <= index < |images|
      modifies this
      ensures Valid()
      ensures current == index && fullscreen == old(fullscreen)
    {
      current := index;
    }

    /** `openFullscreen` (lines 31-33). */
    method OpenFullscreen(index: int)
      requires Valid() && IndexFor(index, |images|)
      modifies this
      ensures Valid() && IsOpen()
      ensures fullscreen == Some(index) && current == old(current)
    {
      fullscreen := Some(index);
    }

    /** The expand button (line 47) opens the image shown. */
    method ExpandCurrent()
      requires Valid()
      modifies this
      ensures Valid() && IsOpen()
      ensures fullscreen == Some(current) && current == old(current)
    {
      OpenFullscreen(current);
    }

    /** `onOpenChange` (line 98): closing clears the index, opening changes
        nothing. */
    method OnOpenChange(open: bool)
      requires Valid()
      modifies this
      ensures Valid()
      ensures fullscreen == (if open then old(fullscreen) else None)
      ensures !open ==> !IsOpen()
      ensures current == old(current)
    {
      if !open {
        fullscreen := None;
      }
    }

    /** The fullscreen "next" button, shown only while an index is set
        (line 118). */
    method FullscreenNextImage()
      requires Valid() && |images| >= 1 && fullscreen.Some?
      modifies this
      ensures Valid()
      ensures fullscreen == FullscreenNext(old(fullscreen), |images|)
      ensures fullscreen == Some(Next(old(fullscreen).value, |images|))
      ensures current == old(current)
    {
      FullscreenNextWraps(fullscreen.value, |images|);
      NextInRange(fullscreen.value, |images|);
      fullscreen := FullscreenNext(fullscreen, |images|);
    }

    /** The fullscreen "previous" button (line 118). */
    method FullscreenPrevImage()
      requires Valid() && |images| >= 1 && fullscreen.Some?
      modifies this
      ensures Valid()
      ensures fullscreen == FullscreenPrev(old(fullscreen), |images|)
      ensures fullscreen == Some(Prev(old(fullscreen).value, |images|))
      ensures current == old(current)
    {
      FullscreenPrevWraps(fullscreen.value, |images|);
      PrevInRange(fullscreen.value, |images|);
      fullscreen := FullscreenPrev(fullscreen, |images|);
    }
  }

  // ---------------------------------------------------------------------------
  // Properties

  lemma NextInRange(i: int, n: int)
    requires n >= 1 && 0 <= i < n
    ensures 0 <= Next(i, n) < n
  {
  }

  lemma PrevInRange(i: int, n: int)
    requires n >= 1 && 0 <= i < n
    ensures 0 <= Prev(i, n) < n
  {
  }

  /** "Next" and "previous" undo each other. */
  lemma NextPrevInverse(i: int, n: int)
    requires n >= 1 && 0 <= i < n
    ensures Prev(Next(i, n), n) == i
    ensures Next(Prev(i, n), n) == i
  {
  }

  /** "Next" is addition of one modulo the number of images. */
  lemma NextIsModular(i: int, n: int)
    requires n >= 1 && 0 <= i < n
    ensures Next(i, n) == (i + 1) % n
  {
    if i < n - 1 {
      assert (i + 1) % n == i + 1;
    }
  }

  /** "Previous" is subtraction of one modulo the number of images. */
  lemma PrevIsModular(i: int, n: int)
    requires n >= 1 && 0 <= i < n
    ensures Prev(i, n) == (i - 1) % n
  {
    if i > 0 {
      assert (i - 1) % n == i - 1;
    }
  }

  /** `k` steps forward move `k` places round the cycle. */
  lemma {:induction false} AdvanceIsModular(i: int, n: int, k: nat)
    requires n >= 1 && 0 <= i < n
    ensures Advance(i, n, k) == (i + k) % n
  {
    if k > 0 {
      AdvanceIsModular(i, n, k - 1);
      var j := Advance(i, n, k - 1);
      NextIsModular(j, n);
      ModSucc(i + k - 1, n);
    }
  }

  /** Pressing "next" once per image comes back to the image one started at. */
  lemma FullCycle(i: int, n: int)
    requires n >= 1 && 0 <= i < n
    ensures Advance(i, n, n) == i
  {
    AdvanceIsModular(i, n, n);
    assert (i + n) % n == i;
  }

  /** The fullscreen buttons wrap like the inline ones. */
  lemma FullscreenNextWraps(i: int, n: int)
    ensures FullscreenNext(Some(i), n) == Some(Next(i, n))
  {
  }

  lemma FullscreenPrevWraps(i: int, n: int)
    ensures FullscreenPrev(Some(i), n) == Some(Prev(i, n))
  {
  }

  /** On `null` both comparisons fail and `null` is coerced to 0, giving 1
      and -1; the buttons are not rendered while the index is `null`
      (line 118). */
  lemma FullscreenOnNull(n: int)
    ensures FullscreenNext(None, n) == Some(1)
    ensures FullscreenPrev(None, n) == Some(-1)
  {
  }

  lemma ModSucc(a: int, n: int)
    requires n >= 1
    ensures (a + 1) % n == ((a % n) + 1) % n
  {
    var q, r := a / n, a % n;
    if r < n - 1 {
      ModUnique(a + 1, q, r + 1, n);
      ModUnique(r + 1, 0, r + 1, n);
    } else {
      ModUnique(a + 1, q + 1, 0, n);
      ModUnique(n, 1, 0, n);
    }
  }

  /** Euclidean division has one quotient and one remainder. */
  lemma ModUnique(a: int, q: int, r: int, n: int)
    requires n >= 1 && 0 <= r < n && a == q * n + r
    ensures a % n == r
  {
    var q', r' := a / n, a % n;
    assert (q' - q) * n == r - r';
    if q' > q {
      MulAtLeast(q' - q, n);
    } else if q' < q {
      MulAtLeast(q - q', n);
    }
  }

  lemma MulAtLeast(d: int, n: int)
    requires d >= 1 && n >= 1
    ensures d * n >= n
  {
  }
}
