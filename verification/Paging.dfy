/** Cutting a list into pages and putting the pages together again. */
module Paging {
  import opened Numerals
  import opened Prelude

  /** At most `size` elements from position `start` on. */
  function Page<T>(xs: seq<T>, start: nat, size: nat): seq<T> {
    if start >= |xs| then [] else xs[start..Min(start + size, |xs|)]
  }

  /** The first `n` pages of `size` elements, one after the other. */
  function FirstPages<T>(xs: seq<T>, size: nat, n: nat): seq<T> {
    if n == 0 then [] else FirstPages(xs, size, n - 1) + Page(xs, (n - 1) * size, size)
  }

  function PageCount(total: nat, size: nat): nat
    requires size > 0
  {
    (total + size - 1) / size
  }

  lemma {:induction false} FirstPagesArePrefix<T>(xs: seq<T>, size: nat, n: nat)
    ensures FirstPages(xs, size, n) == xs[..Min(n * size, |xs|)]
  {
    if n > 0 {
      FirstPagesArePrefix(xs, size, n - 1);
      var start := (n - 1) * size;
      assert n * size == start + size;
    }
  }

  lemma PageCountBounds(total: nat, size: nat)
    requires size > 0
    ensures total <= PageCount(total, size) * size <= total + size - 1
  {
    var n := total + size - 1;
    assert n == n / size * size + n % size;
  }

  /** A page, and what is left of the list after it. */
  lemma PageThenRest<T>(xs: seq<T>, start: nat, size: nat)
    requires start <= |xs|
    ensures Page(xs, start, size) + xs[Min(start + size, |xs|)..] == xs[start..]
  {
  }

  /** Enough pages make the whole list. */
  lemma PagesCoverList<T>(xs: seq<T>, size: nat)
    requires size > 0
    ensures FirstPages(xs, size, PageCount(|xs|, size)) == xs
  {
    var n := PageCount(|xs|, size);
    FirstPagesArePrefix(xs, size, n);
    PageCountBounds(|xs|, size);
  }

  /** One page less remains after a full page. */
  lemma PageCountStep(total: nat, size: nat)
    requires size > 0
    ensures total > size ==> PageCount(total, size) == 1 + PageCount(total - size, size)
    ensures 0 < total <= size ==> PageCount(total, size) == 1
    ensures total == 0 ==> PageCount(total, size) == 0
  {
    if total > size {
      QuotientStep(total - 1, size);
    } else if total > 0 {
      QuotientStep(total - 1, size);
      SmallQuotient(total - 1, size);
    } else {
      SmallQuotient(size - 1, size);
    }
  }

  lemma QuotientStep(n: nat, size: nat)
    requires size > 0
    ensures (n + size) / size == n / size + 1
  {
    var q, r := n / size, n % size;
    assert n + size == (q + 1) * size + r;
    RemainderOf(q + 1, size, r);
  }

  lemma SmallQuotient(n: nat, size: nat)
    requires n < size
    ensures n / size == 0
  {
  }
}
