/** `gen_even_slices` (metricsifter/utils.py): splitting `n` items into
    `n_packs` contiguous slices whose sizes differ by at most one. The
    generator is modelled as a method that returns the list of the slices
    it yields. */
module Utils {
  import opened Common

  /** `slice(start, stop, None)`. */
  datatype Slice = Slice(start: int, stop: int)

  /** Size of pack `i` given `q = n // n_packs` and `rem = n % n_packs`:
      `q`, plus one for the first `rem` packs. */
  function PackSize(q: int, rem: int, i: int): int {
    q + (if i < rem then 1 else 0)
  }

  /** `min(n_samples, end)` when `n_samples` is given. */
  function Clip(nSamples: Option<int>, end: int): int {
    if nSamples.Some? && nSamples.value < end then nSamples.value else end
  }

  /** Where the next slice starts: the stop of the last one, 0 at first. */
  function NextStart(slices: seq<Slice>): int {
    if |slices| == 0 then 0 else slices[|slices| - 1].stop
  }

  /** The slices yielded by the first `k` iterations of the pack loop. */
  function Packs(q: int, rem: int, nSamples: Option<int>, k: nat): seq<Slice> {
    if k == 0 then []
    else
      var prev := Packs(q, rem, nSamples, k - 1);
      var size := PackSize(q, rem, k - 1);
      if size > 0 then prev + [Slice(NextStart(prev), Clip(nSamples, NextStart(prev) + size))]
      else prev
  }

  /** Everything the generator yields. With a positive divisor Dafny's
      `/` and `%` are Python's floor division and modulo. */
  function EvenSlices(n: int, nPacks: int, nSamples: Option<int>): (r: seq<Slice>)
    requires nPacks >= 1
    ensures |r| == if n <= 0 then 0 else if n < nPacks then n else nPacks
  {
    DivFacts(n, nPacks);
    if n >= 0 then
      PacksShape(n / nPacks, n % nPacks, nSamples, nPacks);
      Packs(n / nPacks, n % nPacks, nSamples, nPacks)
    else
      NoPacksBelowZero(n / nPacks, n % nPacks, nSamples, nPacks);
      Packs(n / nPacks, n % nPacks, nSamples, nPacks)
  }

  /** `list(gen_even_slices(n, n_packs, n_samples=...))`. */
  method GenEvenSlices(n: int, nPacks: int, nSamples: Option<int>) returns (r: Result<seq<Slice>>)
    ensures nPacks < 1 ==> r == Err(ValueError)
    ensures nPacks >= 1 ==> r == Ok(EvenSlices(n, nPacks, nSamples))
  {
    var start := 0;
    if nPacks < 1 {
      return Err(ValueError);
    }
    var yielded: seq<Slice> := [];
    for packNum := 0 to nPacks
      invariant yielded == Packs(n / nPacks, n % nPacks, nSamples, packNum)
      invariant start == NextStart(yielded)
    {
      var thisN := n / nPacks;
      if packNum < n % nPacks {
        thisN := thisN + 1;
      }
      if thisN > 0 {
        var end := start + thisN;
        if nSamples.Some? {
          end := if nSamples.value < end then nSamples.value else end;
        }
        yielded := yielded + [Slice(start, end)];
        start := end;
      }
    }
    return Ok(yielded);
  }

  /** The facts about floor division the slice lemmas rely on. */
  lemma DivFacts(n: int, nPacks: int)
    requires nPacks >= 1
    ensures n == nPacks * (n / nPacks) + n % nPacks && 0 <= n % nPacks < nPacks
    ensures 0 <= n < nPacks ==> n / nPacks == 0 && n % nPacks == n
    ensures n >= nPacks ==> n / nPacks >= 1
    ensures n < 0 ==> n / nPacks < 0
  {
  }

  /** Shape of the slices after `k` packs, for `q, rem >= 0`: one slice per
      non-empty pack, slice `i` holding pack `i`, each starting where the
      previous one stopped. */
  lemma {:induction false} PacksShape(q: int, rem: int, nSamples: Option<int>, k: nat)
    requires q >= 0 && rem >= 0
    ensures |Packs(q, rem, nSamples, k)| == if q >= 1 || k < rem then k else rem
    ensures forall i :: 0 <= i < |Packs(q, rem, nSamples, k)| ==>
      && PackSize(q, rem, i) > 0
      && Packs(q, rem, nSamples, k)[i].stop
           == Clip(nSamples, Packs(q, rem, nSamples, k)[i].start + PackSize(q, rem, i))
    ensures forall i :: 0 < i < |Packs(q, rem, nSamples, k)| ==>
      Packs(q, rem, nSamples, k)[i].start == Packs(q, rem, nSamples, k)[i - 1].stop
    ensures |Packs(q, rem, nSamples, k)| > 0 ==> Packs(q, rem, nSamples, k)[0].start == 0
  {
    if k > 0 {
      PacksShape(q, rem, nSamples, k - 1);
    }
  }

  /** Without `n_samples`, the slices after `k` packs cover
      `[0, k * q + min(k, rem))`. */
  lemma {:induction false} PacksCover(q: int, rem: int, k: nat)
    requires q >= 0 && rem >= 0
    ensures NextStart(Packs(q, rem, None, k)) == k * q + (if k < rem then k else rem)
  {
    if k > 0 {
      PacksCover(q, rem, k - 1);
      assert k * q == (k - 1) * q + q;
    }
  }

  /** With a negative `n`, no pack is non-empty. */
  lemma {:induction false} NoPacksBelowZero(q: int, rem: int, nSamples: Option<int>, k: nat)
    requires q < 0
    ensures Packs(q, rem, nSamples, k) == []
  {
    if k > 0 {
      NoPacksBelowZero(q, rem, nSamples, k - 1);
    }
  }

  /** Without `n_samples` the slices are contiguous from 0, each has size
      `n // n_packs` or one more, and the last stops at `n`. */
  lemma EvenSlicesPartition(n: int, nPacks: int)
    requires nPacks >= 1 && n > 0
    ensures var r := EvenSlices(n, nPacks, None);
      && |r| > 0 && r[0].start == 0 && r[|r| - 1].stop == n
      && (forall i :: 0 < i < |r| ==> r[i].start == r[i - 1].stop)
      && (forall i :: 0 <= i < |r| ==>
            r[i].stop - r[i].start == n / nPacks || r[i].stop - r[i].start == n / nPacks + 1)
  {
    var q, rem := n / nPacks, n % nPacks;
    DivFacts(n, nPacks);
    var r := Packs(q, rem, None, nPacks);
    assert r == EvenSlices(n, nPacks, None);
    PacksShape(q, rem, None, nPacks);
    PacksCover(q, rem, nPacks);
    assert NextStart(r) == nPacks * q + rem;
  }

  /** With `n_samples >= 0` every slice stops at or before `n_samples` and
      never before it starts; later slices may be empty. */
  lemma EvenSlicesClipped(n: int, nPacks: int, nSamples: int)
    requires nPacks >= 1 && n >= 0 && nSamples >= 0
    ensures var r := EvenSlices(n, nPacks, Some(nSamples));
      forall i :: 0 <= i < |r| ==> r[i].start <= r[i].stop <= nSamples
  {
    var q, rem := n / nPacks, n % nPacks;
    DivFacts(n, nPacks);
    var r := Packs(q, rem, Some(nSamples), nPacks);
    assert r == EvenSlices(n, nPacks, Some(nSamples));
    PacksShape(q, rem, Some(nSamples), nPacks);
    ClippedStep(r, q, rem, nSamples, |r|);
  }

  lemma {:induction false} ClippedStep(r: seq<Slice>, q: int, rem: int, nSamples: int, k: nat)
    requires nSamples >= 0 && k <= |r|
    requires forall i :: 0 <= i < |r| ==>
      PackSize(q, rem, i) > 0 && r[i].stop == Clip(Some(nSamples), r[i].start + PackSize(q, rem, i))
    requires forall i :: 0 < i < |r| ==> r[i].start == r[i - 1].stop
    requires |r| > 0 ==> r[0].start == 0
    ensures forall i :: 0 <= i < k ==> r[i].start <= r[i].stop <= nSamples
  {
    if k > 0 {
      ClippedStep(r, q, rem, nSamples, k - 1);
      var j := k - 1;
      assert r[j].start <= nSamples by {
        if j > 0 {
          assert r[j].start == r[j - 1].stop;
        }
      }
      assert PackSize(q, rem, j) > 0;
    }
  }

  /** A single pack is the whole range. */
  lemma SinglePack(n: int)
    requires n > 0
    ensures EvenSlices(n, 1, None) == [Slice(0, n)]
  {
    EvenSlicesPartition(n, 1);
  }

  /** Ten items in three packs: sizes 4, 3 and 3. */
  lemma TenInThree()
    ensures EvenSlices(10, 3, None) == [Slice(0, 4), Slice(4, 7), Slice(7, 10)]
  {
    assert 10 / 3 == 3 && 10 % 3 == 1;
    assert Packs(3, 1, None, 1) == [Slice(0, 4)];
    assert Packs(3, 1, None, 2) == [Slice(0, 4), Slice(4, 7)];
  }
}
