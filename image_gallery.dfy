/**
 * examples/image_gallery.py: a slideshow of the JPEG files in a folder.
 * The index steps forwards and backwards with wrap-around, and each new
 * image is revealed pixel by pixel in the order a 16-bit Galois LFSR
 * visits its states ("fizzlefade").
 */
module ImageGallery {
  import opened Wrappers
  import opened Text
  import opened Decimal
  import opened Bits

  /** The feedback taps of the LFSR. */
  const TAP: nat := 0xdc29
  /** The LFSR state after a full period, where fizzlefade stops. */
  const SEED: nat := 1
  /** The revealed area is SIZE x SIZE pixels. */
  const SIZE: int := 240

  /** One LFSR step: shift right, and XOR in the taps when the bit shifted out was 1. */
  function Step(lfsr: nat): (next: nat)
    ensures lfsr < 0x10000 ==> next < 0x10000
  {
    XorBitsBound(lfsr / 2, TAP, 16);
    Pow2Values();
    if lfsr % 2 == 1 then XorBits(lfsr / 2, TAP, 16) else lfsr / 2
  }

  /**
   * The step loses nothing on 16-bit states: bit 15 of the result tells
   * which bit was shifted out, and XOR with the taps is undone by XOR with
   * the taps.
   */
  lemma StepInjective(a: nat, b: nat)
    requires a < 0x10000 && b < 0x10000 && Step(a) == Step(b)
    ensures a == b
  {
    Pow2Values();
    if a % 2 == 1 && b % 2 == 1 {
      XorBitsTwice(a / 2, TAP, 16);
      XorBitsTwice(b / 2, TAP, 16);
    } else if a % 2 == 1 {
      XorBitsTop(a / 2, TAP, 15);
    } else if b % 2 == 1 {
      XorBitsTop(b / 2, TAP, 15);
    }
  }

  /** The state after k steps. */
  function Iterate(lfsr: nat, k: nat): (r: nat)
    ensures lfsr < 0x10000 ==> r < 0x10000
  {
    if k == 0 then lfsr else Step(Iterate(lfsr, k - 1))
  }

  /** Equal states after i and j steps were equal one step earlier too, back to the start. */
  lemma {:induction false} IterateCancel(lfsr: nat, i: nat, j: nat)
    requires lfsr < 0x10000 && i <= j && Iterate(lfsr, i) == Iterate(lfsr, j)
    ensures Iterate(lfsr, 0) == Iterate(lfsr, j - i)
    decreases i
  {
    if i > 0 {
      StepInjective(Iterate(lfsr, i - 1), Iterate(lfsr, j - 1));
      IterateCancel(lfsr, i - 1, j - 1);
    }
  }

  predicate Distinct(s: seq<int>)
  {
    forall i, j :: 0 <= i < j < |s| ==> s[i] != s[j]
  }

  /** s without the value v. */
  function Remove(s: seq<int>, v: int): (r: seq<int>)
    ensures forall x :: x in r <==> x in s && x != v
  {
    if |s| == 0 then [] else (if s[0] == v then [] else [s[0]]) + Remove(s[1..], v)
  }

  lemma {:induction false} RemoveDistinct(s: seq<int>, v: int)
    requires Distinct(s)
    ensures Distinct(Remove(s, v)) && |Remove(s, v)| >= |s| - 1
    ensures v !in s ==> |Remove(s, v)| == |s|
  {
    if |s| > 0 {
      RemoveDistinct(s[1..], v);
      var t := Remove(s[1..], v);
      assert s[0] !in s[1..];
      assert s[0] !in t;
    }
  }

  /** Pigeonhole: m holes hold at most m distinct values. */
  lemma {:induction false} DistinctBound(s: seq<int>, m: nat)
    requires Distinct(s) && forall i :: 0 <= i < |s| ==> 0 <= s[i] < m
    ensures |s| <= m
    decreases m
  {
    if |s| > 0 {
      assert 0 <= s[0] < m;
      var r := Remove(s, m - 1);
      RemoveDistinct(s, m - 1);
      forall i | 0 <= i < |r|
        ensures 0 <= r[i] < m - 1
      {
        assert r[i] in r;
      }
      DistinctBound(r, m - 1);
    }
  }

  /** The first n states, as numbers. */
  function Orbit(lfsr: nat, n: nat): (r: seq<int>)
    ensures |r| == n
    ensures forall i :: 0 <= i < n ==> r[i] == Iterate(lfsr, i)
  {
    if n == 0 then [] else Orbit(lfsr, n - 1) + [Iterate(lfsr, n - 1)]
  }

  /** Before it comes back, the LFSR never repeats a state. */
  lemma NoRepeat(lfsr: nat, n: nat, i: nat, j: nat)
    requires lfsr < 0x10000
    requires forall k :: 0 < k < n ==> Iterate(lfsr, k) != lfsr
    requires i < j < n
    ensures Iterate(lfsr, i) != Iterate(lfsr, j)
  {
    if Iterate(lfsr, i) == Iterate(lfsr, j) {
      IterateCancel(lfsr, i, j);
    }
  }

  /** An orbit that has not come back is made of distinct states. */
  lemma OrbitDistinct(lfsr: nat, n: nat)
    requires lfsr < 0x10000
    requires forall k :: 0 < k < n ==> Iterate(lfsr, k) != lfsr
    ensures Distinct(Orbit(lfsr, n))
  {
    var s := Orbit(lfsr, n);
    forall i, j | 0 <= i < j < n
      ensures s[i] != s[j]
    {
      NoRepeat(lfsr, n, i, j);
    }
  }

  /**
   * From any 16-bit state the LFSR comes back to it within 65536 steps, so
   * fizzlefade, which steps until the state is 1 again, always stops.
   */
  lemma Returns(lfsr: nat)
    requires lfsr < 0x10000
    ensures exists k :: 0 < k <= 0x10000 && Iterate(lfsr, k) == lfsr
  {
    if forall k :: 0 < k <= 0x10000 ==> Iterate(lfsr, k) != lfsr {
      OrbitDistinct(lfsr, 0x10001);
      OrbitInRange(lfsr, 0x10001);
      DistinctBound(Orbit(lfsr, 0x10001), 0x10000);
    }
  }

  lemma OrbitInRange(lfsr: nat, n: nat)
    requires lfsr < 0x10000
    ensures forall i :: 0 <= i < n ==> 0 <= Orbit(lfsr, n)[i] < 0x10000
  {
    forall i | 0 <= i < n
      ensures 0 <= Orbit(lfsr, n)[i] < 0x10000
    {
      assert Iterate(lfsr, i) < 0x10000;
    }
  }

  /**
   * return_point's result for a state: the low byte less one as x and the
   * high byte as y when that lands on the 240 x 240 area, else (-1, -1).
   */
  function Point(lfsr: nat): (p: (int, int))
    ensures p == (-1, -1) || (-1 <= p.0 < SIZE && 0 <= p.1 < SIZE)
  {
    var x := lfsr % 256;
    var y := lfsr / 256 % 256;
    if x - 1 < SIZE && y < SIZE then (x - 1, y) else (-1, -1)
  }

  /** A number below 256 * 256 is its high byte times 256 plus its low byte. */
  lemma Bytes(hi: int, lo: int)
    requires 0 <= hi < 256 && 0 <= lo < 256
    ensures (hi * 256 + lo) % 256 == lo && (hi * 256 + lo) / 256 % 256 == hi
  {}

  /** Each pixel of the area is drawn by exactly one 16-bit state: the one with x+1 and y as bytes. */
  lemma PointOfState(lfsr: nat, px: int, py: int)
    requires lfsr < 0x10000 && 0 <= px < SIZE && 0 <= py < SIZE
    ensures Point(lfsr) == (px, py) <==> lfsr == py * 256 + px + 1
  {
    var hi, lo := lfsr / 256, lfsr % 256;
    assert lfsr == hi * 256 + lo && hi < 256;
    Bytes(hi, lo);
  }

  /** The pixels fizzlefade draws: the points of the first n states that land on the area. */
  function Pixels(lfsr: nat, n: nat): (ps: seq<(int, int)>)
    ensures forall i :: 0 <= i < |ps| ==> 0 <= ps[i].0 < SIZE && 0 <= ps[i].1 < SIZE
  {
    if n == 0 then []
    else
      var p := Point(Iterate(lfsr, n - 1));
      Pixels(lfsr, n - 1) + (if p.0 > -1 && p.1 > -1 then [p] else [])
  }

  /** The state a file name stands for: the number before its 4-character extension, or 0. */
  function NumberedFiles(k: string): (n: int)
    ensures |k| <= 4 ==> n == 0
  {
    match ParseInt(if |k| >= 4 then k[..|k| - 4] else "")
    case Some(n) => n
    case None => 0
  }

  /** A numbered picture sorts by its number. */
  lemma NumberedFilesOf(n: int)
    ensures NumberedFiles(Str(n) + ".jpg") == n
  {
    var k := Str(n) + ".jpg";
    assert k[..|k| - 4] == Str(n);
    ParseIntStr(n);
  }

  /** The files the gallery keeps. */
  predicate IsImage(file: string)
  {
    EndsWith(file, ".jpg") || EndsWith(file, ".jpeg")
  }

  /** The images among files, in listing order. */
  function FilterImages(files: seq<string>): (r: seq<string>)
    ensures forall i :: 0 <= i < |r| ==> IsImage(r[i])
    ensures forall f :: f in r <==> f in files && IsImage(f)
    ensures forall f :: multiset(r)[f] == if IsImage(f) then multiset(files)[f] else 0
  {
    if |files| == 0 then []
    else
      assert files == [files[0]] + files[1..];
      (if IsImage(files[0]) then [files[0]] else []) + FilterImages(files[1..])
  }

  /** The filter keeps the listing's order: it distributes over concatenation. */
  lemma {:induction false} FilterImagesAppend(a: seq<string>, b: seq<string>)
    ensures FilterImages(a + b) == FilterImages(a) + FilterImages(b)
    decreases |a|
  {
    if |a| == 0 {
      assert a + b == b;
    } else {
      var head := if IsImage(a[0]) then [a[0]] else [];
      assert (a + b)[0] == a[0] && (a + b)[1..] == a[1..] + b;
      FilterImagesAppend(a[1..], b);
      assert FilterImages(a) == head + FilterImages(a[1..]);
      ListAssoc(head, FilterImages(a[1..]), FilterImages(b));
    }
  }

  /** One file is kept exactly when it qualifies. */
  lemma FilterImagesOne(f: string)
    ensures FilterImages([f]) == if IsImage(f) then [f] else []
  {
  }

  predicate SortedBy(s: seq<string>, key: string -> int)
  {
    forall i, j :: 0 <= i < j < |s| ==> key(s[i]) <= key(s[j])
  }

  /** x placed ahead of the first name whose key is not smaller. */
  function Insert(x: string, s: seq<string>, key: string -> int): (r: seq<string>)
    ensures multiset(r) == multiset(s) + multiset{x}
  {
    if |s| == 0 then [x]
    else if key(x) <= key(s[0]) then [x] + s
    else
      assert s == [s[0]] + s[1..];
      [s[0]] + Insert(x, s[1..], key)
  }

  /** Inserting into a sorted list keeps it sorted. */
  lemma {:induction false} InsertSorted(x: string, s: seq<string>, key: string -> int)
    requires SortedBy(s, key)
    ensures SortedBy(Insert(x, s, key), key)
  {
    if |s| > 0 && key(x) > key(s[0]) {
      var t := Insert(x, s[1..], key);
      InsertSorted(x, s[1..], key);
      forall j | 0 <= j < |t|
        ensures key(s[0]) <= key(t[j])
      {
        assert t[j] in multiset(t);
        if t[j] != x {
          HeadBound(s, key, t[j]);
        }
      }
      ConsSorted(s[0], t, key);
    }
  }

  /** In a sorted list the head's key is no larger than any later name's. */
  lemma HeadBound(s: seq<string>, key: string -> int, y: string)
    requires SortedBy(s, key) && |s| > 0 && y in multiset(s[1..])
    ensures key(s[0]) <= key(y)
  {
    var k :| 0 <= k < |s[1..]| && s[1..][k] == y;
    assert s[k + 1] == y;
  }

  /** A name whose key is no larger than any in a sorted list can go in front of it. */
  lemma ConsSorted(a: string, t: seq<string>, key: string -> int)
    requires SortedBy(t, key) && forall j :: 0 <= j < |t| ==> key(a) <= key(t[j])
    ensures SortedBy([a] + t, key)
  {
    var r := [a] + t;
    forall i, j | 0 <= i < j < |r|
      ensures key(r[i]) <= key(r[j])
    {
      assert r[j] == t[j - 1];
      if i > 0 {
        assert r[i] == t[i - 1];
      }
    }
  }

  /** sorted(s, key=key): the same names, in order of their keys. */
  function SortBy(s: seq<string>, key: string -> int): (r: seq<string>)
    ensures multiset(r) == multiset(s)
    ensures SortedBy(r, key)
  {
    if |s| == 0 then []
    else
      assert s == [s[0]] + s[1..];
      InsertSorted(s[0], SortBy(s[1..], key), key);
      Insert(s[0], SortBy(s[1..], key), key)
  }

  /** Dropping names keeps the rest in order. */
  lemma {:induction false} FilterSorted(s: seq<string>, key: string -> int)
    requires SortedBy(s, key)
    ensures SortedBy(FilterImages(s), key)
  {
    if |s| > 0 {
      FilterSorted(s[1..], key);
      var r := FilterImages(s[1..]);
      forall j | 0 <= j < |r|
        ensures key(s[0]) <= key(r[j])
      {
        assert r[j] in s[1..];
      }
    }
  }

  /** The list of files the gallery shows, from the folder listing. */
  function GalleryFiles(listing: seq<string>): (files: seq<string>)
    ensures forall f :: f in files <==> f in listing && IsImage(f)
    ensures SortedBy(files, NumberedFiles)
  {
    var sorted := SortBy(listing, NumberedFiles);
    assert forall f :: f in sorted <==> f in listing by {
      assert forall f :: f in sorted <==> f in multiset(sorted);
    }
    FilterSorted(sorted, NumberedFiles);
    FilterImages(sorted)
  }

  /** The index after "next": one on, or back to 0 after the last. */
  function NextIndex(current: int, total: int): (i: int)
    ensures 0 <= current <= total ==> 0 <= i <= total && (i == 0 <==> current == total)
  {
    if current < total then current + 1 else 0
  }

  /** The index after "previous": one back, or round to the last from 0. */
  function PrevIndex(current: int, total: int): (i: int)
    ensures 0 <= current <= total ==> 0 <= i <= total && (i == total <==> current == 0)
  {
    if current > 0 then current - 1 else total
  }

  /** Both moves keep the index on a picture, and each undoes the other. */
  lemma IndexMoves(current: int, total: int)
    requires 0 <= current <= total
    ensures 0 <= NextIndex(current, total) <= total && 0 <= PrevIndex(current, total) <= total
    ensures PrevIndex(NextIndex(current, total), total) == current
    ensures NextIndex(PrevIndex(current, total), total) == current
  {}

  class Gallery {
    var lfsr: nat
    var currentImage: int
    var totalImageCount: int
    var files: seq<string>

    /** The module's start-up: the sorted picture list, the first picture, the LFSR at 1. */
    constructor(listing: seq<string>)
      ensures files == GalleryFiles(listing) && totalImageCount == |files| - 1
      ensures currentImage == 0 && lfsr == SEED
    {
      var found := GalleryFiles(listing);
      files := found;
      totalImageCount := |found| - 1;
      currentImage := 0;
      lfsr := SEED;
    }

    /** return_point: the point of the current state, and one LFSR step. */
    method ReturnPoint() returns (x: int, y: int)
      modifies this
      ensures (x, y) == Point(old(lfsr)) && lfsr == Step(old(lfsr))
      ensures currentImage == old(currentImage) && totalImageCount == old(totalImageCount) && files == old(files)
    {
      x := lfsr % 256;
      y := lfsr / 256 % 256;
      var lsb := lfsr % 2;
      lfsr := lfsr / 2;
      if lsb == 1 {
        lfsr := XorBits(lfsr, TAP, 16);
      }
      if x - 1 < SIZE && y < SIZE {
        x, y := x - 1, y;
      } else {
        x, y := -1, -1;
      }
    }

    /**
     * One frame of fizzlefade: up to 2000 points, stopping early when the
     * state is back at 1.
     */
    method FizzleFrame(ghost period: nat, pixels0: seq<(int, int)>, steps0: nat)
      returns (pixels: seq<(int, int)>, steps: nat)
      requires 0 < period && Iterate(SEED, period) == SEED
      requires lfsr == Iterate(SEED, steps0) && pixels0 == Pixels(SEED, steps0)
      requires forall k :: 0 < k < steps0 ==> Iterate(SEED, k) != SEED
      requires steps0 > 0 ==> lfsr != SEED
      requires steps0 < period
      modifies this
      ensures steps0 < steps <= period
      ensures lfsr == Iterate(SEED, steps) && pixels == Pixels(SEED, steps)
      ensures forall k :: 0 < k < steps ==> Iterate(SEED, k) != SEED
      ensures currentImage == old(currentImage) && totalImageCount == old(totalImageCount) && files == old(files)
    {
      pixels, steps := pixels0, steps0;
      for i := 0 to 2000
        invariant lfsr == Iterate(SEED, steps) && pixels == Pixels(SEED, steps)
        invariant forall k :: 0 < k < steps ==> Iterate(SEED, k) != SEED
        invariant steps == steps0 + i && steps < period
        invariant steps > 0 ==> lfsr != SEED
        invariant currentImage == old(currentImage) && totalImageCount == old(totalImageCount) && files == old(files)
      {
        ghost var was := lfsr;
        var x, y := ReturnPoint();
        if x > -1 && y > -1 {
          pixels := pixels + [(x, y)];
        }
        steps := steps + 1;
        assert Iterate(SEED, steps - 1) == was && (steps - 1 > 0 ==> was != SEED);
        assert lfsr == Step(was) == Iterate(SEED, steps);
        assert forall k :: 0 < k < steps ==> Iterate(SEED, k) != SEED by {
          forall k | 0 < k < steps
            ensures Iterate(SEED, k) != SEED
          {
            if k == steps - 1 {
              assert Iterate(SEED, k) == was;
            }
          }
        }
        if lfsr == SEED {
          return;
        }
        assert steps != period;
      }
    }

    /**
     * fizzlefade: steps the LFSR frame by frame, drawing each point on the
     * area, until the state is 1 again.  It takes exactly one period of the
     * LFSR and leaves the state where it found it.
     */
    method FizzleFade() returns (pixels: seq<(int, int)>, steps: nat)
      requires lfsr == SEED
      modifies this
      ensures lfsr == SEED && steps > 0 && Iterate(SEED, steps) == SEED
      ensures forall k :: 0 < k < steps ==> Iterate(SEED, k) != SEED
      ensures pixels == Pixels(SEED, steps)
      ensures currentImage == old(currentImage) && totalImageCount == old(totalImageCount) && files == old(files)
    {
      Returns(SEED);
      ghost var period :| 0 < period <= 0x10000 && Iterate(SEED, period) == SEED;
      pixels, steps := FizzleFrame(period, [], 0);
      while lfsr != SEED
        invariant lfsr == Iterate(SEED, steps) && pixels == Pixels(SEED, steps)
        invariant forall k :: 0 < k < steps ==> Iterate(SEED, k) != SEED
        invariant 0 < steps <= period
        invariant currentImage == old(currentImage) && totalImageCount == old(totalImageCount) && files == old(files)
        decreases period - steps
      {
        pixels, steps := FizzleFrame(period, pixels, steps);
      }
    }

    /** show_image's index update: next first, then previous, as requested. */
    method ShowImage(showNext: bool, showPrevious: bool)
      modifies this
      ensures var afterNext := if showNext then NextIndex(old(currentImage), totalImageCount) else old(currentImage);
        currentImage == (if showPrevious then PrevIndex(afterNext, totalImageCount) else afterNext)
      ensures lfsr == old(lfsr) && totalImageCount == old(totalImageCount) && files == old(files)
    {
      if showNext {
        if currentImage < totalImageCount {
          currentImage := currentImage + 1;
        } else {
          currentImage := 0;
        }
      }
      if showPrevious {
        if currentImage > 0 {
          currentImage := currentImage - 1;
        } else {
          currentImage := totalImageCount;
        }
      }
    }
  }
}
