/**
 * The image carousel of the projects section (app/components/Projects.tsx).
 *
 * The component keeps one record `currentImageIndexes` from project index to
 * the image currently shown for that project. The three updaters build a new
 * record from the previous one (`...prev`) with one key replaced, so they are
 * modelled as pure functions on `map<int, int>`.
 */
module Carousel {

  /** The `Record<number, number>` state: project index to image index. */
  type IndexTable = map<int, int>

  /** `prev[projectIndex] || 0`: a missing entry (and a stored 0) reads as 0. */
  function Current(t: IndexTable, project: int): (r: int)
    ensures project in t ==> r == t[project]
    ensures project !in t ==> r == 0
  {
    if project in t then t[project] else 0
  }

  /**
   * JavaScript's `%` on integers: the remainder takes the sign of the
   * dividend (truncated division), unlike Dafny's Euclidean `%`.
   */
  function JsRem(a: int, n: int): (r: int)
    requires n > 0
    ensures a >= 0 ==> r == a % n
    ensures a >= 0 ==> 0 <= r < n
    ensures a < 0 ==> -n < r <= 0
  {
    if a >= 0 then a % n else -((-a) % n)
  }

  predicate InRange(i: int, total: int) {
    0 <= i < total
  }

  /** `nextImage(projectIndex, totalImages)`: advance one image, wrapping at the end. */
  function NextImage(t: IndexTable, project: int, total: int): (r: IndexTable)
    requires total > 0
    ensures project in r && r - {project} == t - {project}
    ensures InRange(Current(t, project), total) ==>
              r[project] == if Current(t, project) == total - 1 then 0 else Current(t, project) + 1
    ensures Current(t, project) >= -1 ==> InRange(r[project], total)
  {
    ModBelowTwice(Current(t, project) + 1, total);
    t[project := JsRem(Current(t, project) + 1, total)]
  }

  /** `prevImage(projectIndex, totalImages)`: step back one image, wrapping at the start. */
  function PrevImage(t: IndexTable, project: int, total: int): (r: IndexTable)
    requires total > 0
    ensures project in r && r - {project} == t - {project}
    ensures InRange(Current(t, project), total) ==>
              r[project] == if Current(t, project) == 0 then total - 1 else Current(t, project) - 1
    ensures Current(t, project) >= 1 - total ==> InRange(r[project], total)
  {
    ModBelowTwice(Current(t, project) - 1 + total, total);
    t[project := JsRem(Current(t, project) - 1 + total, total)]
  }

  /** `goToImage(projectIndex, imageIndex)`: jump to an image, with no bounds check. */
  function GoToImage(t: IndexTable, project: int, image: int): (r: IndexTable)
    ensures project in r && r - {project} == t - {project}
    ensures Current(r, project) == image
  {
    t[project := image]
  }

  /** `nextImage` applied `k` times to the same project. */
  function NextTimes(t: IndexTable, project: int, total: int, k: nat): (r: IndexTable)
    requires total > 0
    decreases k
  {
    if k == 0 then t else NextImage(NextTimes(t, project, total, k - 1), project, total)
  }

  /** Arithmetic helper for ModUnique: a positive multiple of `n` is at least `n`. */
  lemma MulAtLeast(d: int, n: int)
    requires d > 0 && n > 0
    ensures d * n >= n
  {
  }

  /** Euclidean division has one quotient and one remainder. */
  lemma ModUnique(a: int, n: int, q: int, rem: int)
    requires n > 0 && 0 <= rem < n && a == q * n + rem
    ensures a % n == rem
  {
    var q', r' := a / n, a % n;
    assert a == q' * n + r';
    var d := q - q';
    assert d * n == r' - rem by {
      assert q * n - q' * n == (q - q') * n;
    }
    if d > 0 {
      MulAtLeast(d, n);
    } else if d < 0 {
      MulAtLeast(-d, n);
    }
  }

  /** On `[0, 2n)` the remainder subtracts `n` at most once. */
  lemma ModBelowTwice(a: int, n: int)
    requires n > 0
    ensures 0 <= a < 2 * n ==> a % n == if a < n then a else a - n
  {
    if a < 0 || a >= 2 * n {
    } else if a < n { ModUnique(a, n, 0, a); } else { ModUnique(a, n, 1, a - n); }
  }

  lemma ModSucc(x: nat, n: int)
    requires n > 0
    ensures (x + 1) % n == if x % n == n - 1 then 0 else x % n + 1
  {
    var q := x / n;
    assert x == q * n + x % n;
    if x % n == n - 1 {
      ModUnique(x + 1, n, q + 1, 0);
    } else {
      ModUnique(x + 1, n, q, x % n + 1);
    }
  }

  /** After `k` steps forward from an in-range index `c`, the index is `(c + k) mod total`. */
  lemma {:induction false} NextTimesIndex(t: IndexTable, project: int, total: int, k: nat)
    requires total > 0 && InRange(Current(t, project), total)
    ensures Current(NextTimes(t, project, total, k), project) == (Current(t, project) + k) % total
    ensures NextTimes(t, project, total, k) - {project} == t - {project}
  {
    var c := Current(t, project);
    if k == 0 {
      ModUnique(c, total, 0, c);
    } else {
      NextTimesIndex(t, project, total, k - 1);
      var prev := NextTimes(t, project, total, k - 1);
      assert Current(prev, project) == (c + k - 1) % total;
      ModSucc(c + k - 1, total);
    }
  }

  /** Pressing "next" `total` times brings a project back to the image it started on. */
  lemma CycleReturnsToStart(t: IndexTable, project: int, total: int)
    requires total > 0 && InRange(Current(t, project), total)
    ensures NextTimes(t, project, total, total) == t[project := Current(t, project)]
  {
    var c := Current(t, project);
    var r := NextTimes(t, project, total, total);
    NextTimesIndex(t, project, total, total);
    ModUnique(c + total, total, 1, c);
    assert r == r - {project} + map[project := Current(r, project)];
  }

  /** "next" followed by "prev" restores the shown image; other projects are untouched. */
  lemma NextThenPrev(t: IndexTable, project: int, total: int)
    requires total > 0 && InRange(Current(t, project), total)
    ensures PrevImage(NextImage(t, project, total), project, total) == t[project := Current(t, project)]
  {
  }

  /** "prev" followed by "next" restores the shown image; other projects are untouched. */
  lemma PrevThenNext(t: IndexTable, project: int, total: int)
    requires total > 0 && InRange(Current(t, project), total)
    ensures NextImage(PrevImage(t, project, total), project, total) == t[project := Current(t, project)]
  {
  }

  /** Jumping to the same image twice is the same as jumping once. */
  lemma GoToIdempotent(t: IndexTable, project: int, image: int)
    ensures GoToImage(GoToImage(t, project, image), project, image) == GoToImage(t, project, image)
  {
  }

  /** One user action on a carousel: an arrow or an indicator. */
  datatype Nav = Next | Prev | GoTo(image: int)

  /** The table after a sequence of actions on one project's carousel. */
  function Navigate(t: IndexTable, project: int, total: int, actions: seq<Nav>): (r: IndexTable)
    requires total > 0
    decreases |actions|
  {
    if actions == [] then t
    else
      var t' := match actions[0]
        case Next => NextImage(t, project, total)
        case Prev => PrevImage(t, project, total)
        case GoTo(i) => GoToImage(t, project, i);
      Navigate(t', project, total, actions[1..])
  }

  /** Indicators only ever jump to an existing image (one indicator per image). */
  predicate FromIndicators(actions: seq<Nav>, total: int) {
    forall k :: 0 <= k < |actions| && actions[k].GoTo? ==> InRange(actions[k].image, total)
  }

  /**
   * Any sequence of arrow and indicator presses keeps the shown index in
   * `[0, total)` and never touches another project's entry.
   */
  lemma {:induction false} NavigateStaysInRange(t: IndexTable, project: int, total: int, actions: seq<Nav>)
    requires total > 0 && InRange(Current(t, project), total) && FromIndicators(actions, total)
    ensures InRange(Current(Navigate(t, project, total, actions), project), total)
    ensures Navigate(t, project, total, actions) - {project} == t - {project}
    decreases |actions|
  {
    if actions != [] {
      var t' := match actions[0]
        case Next => NextImage(t, project, total)
        case Prev => PrevImage(t, project, total)
        case GoTo(i) => GoToImage(t, project, i);
      assert InRange(Current(t', project), total);
      assert FromIndicators(actions[1..], total) by {
        forall k | 0 <= k < |actions[1..]| && actions[1..][k].GoTo?
          ensures InRange(actions[1..][k].image, total)
        {
          assert actions[1..][k] == actions[k + 1];
        }
      }
      NavigateStaysInRange(t', project, total, actions[1..]);
      assert Navigate(t, project, total, actions) == Navigate(t', project, total, actions[1..]);
    }
  }

  /**
   * The `src` of the shown image: `images[current] || images[0] || ""`.
   * An index past the end reads as `undefined` and the empty string is
   * falsy, so both fall through to the next alternative.
   */
  function ImageSrc(images: seq<string>, current: int): (r: string)
    ensures 0 <= current < |images| && images[current] != "" ==> r == images[current]
    ensures !(0 <= current < |images| && images[current] != "") && |images| > 0 ==> r == images[0]
    ensures r == "" || r in images
  {
    if 0 <= current < |images| && images[current] != "" then images[current]
    else if |images| > 0 && images[0] != "" then images[0]
    else ""
  }

  /** What the carousel renders besides the image: arrows and one indicator per image. */
  datatype Controls = Controls(arrows: bool, indicators: seq<bool>)

  /** Arrows and indicators exist only when `totalImages > 1`; indicator `i` is active iff `i == current`. */
  function CarouselControls(total: int, current: int): (r: Controls)
    ensures r.arrows <==> total > 1
    ensures |r.indicators| == if total > 1 then total else 0
    ensures forall i :: 0 <= i < |r.indicators| ==> (r.indicators[i] <==> i == current)
  {
    if total > 1 then Controls(true, seq(total, i => i == current)) else Controls(false, [])
  }

  /** With the index in range and several images, exactly one indicator is active. */
  lemma ExactlyOneIndicatorActive(total: int, current: int)
    requires total > 1 && InRange(current, total)
    ensures CarouselControls(total, current).indicators[current]
    ensures forall i, j :: 0 <= i < j < total ==>
              !(CarouselControls(total, current).indicators[i] && CarouselControls(total, current).indicators[j])
  {
  }

  /**
   * The walkthrough of a three-image card from a fresh table: "next" shows
   * images 2, 3 and then 1 again; "prev" from the start shows image 3.
   */
  lemma ThreeImageWalkthrough(images: seq<string>)
    requires |images| == 3 && forall k :: 0 <= k < 3 ==> images[k] != ""
    ensures ImageSrc(images, Current(map[], 0)) == images[0]
    ensures Current(NextImage(map[], 0, 3), 0) == 1
    ensures Current(NextTimes(map[], 0, 3, 2), 0) == 2
    ensures Current(NextTimes(map[], 0, 3, 3), 0) == 0
    ensures ImageSrc(images, Current(PrevImage(map[], 0, 3), 0)) == images[2]
    ensures Current(PrevImage(NextImage(map[], 0, 3), 0, 3), 0) == 0
  {
    assert NextTimes(map[], 0, 3, 2) == NextImage(NextImage(map[], 0, 3), 0, 3);
    assert NextTimes(map[], 0, 3, 3) == NextImage(NextTimes(map[], 0, 3, 2), 0, 3);
  }
}
