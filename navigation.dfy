/**
 * The index updaters that components/gallery.tsx and
 * components/collection-view.tsx both pass to the viewer as `onNext` and
 * `onPrevious`: `(prev + 1) % n` and `(prev - 1 + n) % n` over the
 * number `n` of photos shown.
 */
module Navigation {
  import Lightbox

  /** JavaScript's `%`: the remainder truncates toward zero, so it takes the sign of the dividend. */
  function JsRemainder(a: int, n: int): (r: int)
    requires n > 0
    ensures 0 <= a ==> 0 <= r < n && r == a % n
    ensures a < 0 ==> -n < r <= 0
  {
    if a >= 0 then a % n else -((-a) % n)
  }

  /** Euclidean remainder of a dividend below the divisor. */
  lemma ModBelow(a: int, n: int)
    requires 0 <= a < n
    ensures a % n == a
  {
  }

  /** Euclidean remainder of a dividend between one and two divisors. */
  lemma ModOnce(a: int, n: int)
    requires 0 < n <= a < 2 * n
    ensures a % n == a - n
  {
    ModBelow(a - n, n);
    assert (a - n) % n == a % n;
  }

  /** `(prev + 1) % photoCount`: forward, wrapping from the last photo to the first. */
  function NextIndex(photoCount: int, prev: int): (r: int)
    requires photoCount > 0
    ensures 0 <= prev ==> 0 <= r < photoCount
    ensures 0 <= prev < photoCount - 1 ==> r == prev + 1
    ensures prev == photoCount - 1 ==> r == 0
  {
    if 0 <= prev < photoCount - 1 then ModBelow(prev + 1, photoCount); JsRemainder(prev + 1, photoCount)
    else if prev == photoCount - 1 then ModOnce(prev + 1, photoCount); JsRemainder(prev + 1, photoCount)
    else JsRemainder(prev + 1, photoCount)
  }

  /** `(prev - 1 + photoCount) % photoCount`: backward, wrapping from the first photo to the last. */
  function PreviousIndex(photoCount: int, prev: int): (r: int)
    requires photoCount > 0
    ensures 1 - photoCount <= prev ==> 0 <= r < photoCount
    ensures 0 < prev <= photoCount ==> r == prev - 1
    ensures prev == 0 ==> r == photoCount - 1
  {
    if 0 < prev <= photoCount then ModOnce(prev - 1 + photoCount, photoCount); JsRemainder(prev - 1 + photoCount, photoCount)
    else if prev == 0 then ModBelow(prev - 1 + photoCount, photoCount); JsRemainder(prev - 1 + photoCount, photoCount)
    else JsRemainder(prev - 1 + photoCount, photoCount)
  }

  /** Previous undoes next and next undoes previous. */
  lemma NextPreviousInverse(photoCount: int, i: int)
    requires 0 <= i < photoCount
    ensures PreviousIndex(photoCount, NextIndex(photoCount, i)) == i
    ensures NextIndex(photoCount, PreviousIndex(photoCount, i)) == i
  {
  }

  /** The index after `k` presses of next. */
  function NextTimes(photoCount: int, i: int, k: nat): (r: int)
    requires 0 <= i < photoCount
    ensures 0 <= r < photoCount
    decreases k
  {
    if k == 0 then i else NextIndex(photoCount, NextTimes(photoCount, i, k - 1))
  }

  /** Up to a full cycle, `k` presses of next move `k` places forward, wrapping once past the end. */
  lemma {:induction false} NextTimesShift(photoCount: int, i: int, k: nat)
    requires 0 <= i < photoCount && k <= photoCount
    ensures NextTimes(photoCount, i, k) == if i + k < photoCount then i + k else i + k - photoCount
  {
    if k > 0 {
      NextTimesShift(photoCount, i, k - 1);
    }
  }

  /** Pressing next once per photo returns to the starting photo. */
  lemma NextTimesFullCycle(photoCount: int, i: int)
    requires 0 <= i < photoCount
    ensures NextTimes(photoCount, i, photoCount) == i
  {
    NextTimesShift(photoCount, i, photoCount);
  }

  /**
   * The viewer's buttons clamp while its keys wrap: the next button is shown
   * exactly when next does not wrap, and the previous button exactly when
   * previous does not wrap.
   */
  lemma ButtonsClampKeysWrap(photoCount: int, i: int)
    requires 0 <= i < photoCount
    ensures Lightbox.ShowNextButton(photoCount, i) <==> NextIndex(photoCount, i) == i + 1
    ensures Lightbox.ShowPreviousButton(i) <==> PreviousIndex(photoCount, i) == i - 1
    ensures !Lightbox.ShowNextButton(photoCount, i) ==> NextIndex(photoCount, i) == 0
    ensures !Lightbox.ShowPreviousButton(i) ==> PreviousIndex(photoCount, i) == photoCount - 1
  {
  }
}
