/** The test-set pager: two cursors, one per catalog, from which each page
    takes up to five cats and then up to five dogs. A cursor that reaches the
    end of its catalog is reset to 0 (not reduced modulo the length); going
    back moves each cursor ten places down, stopping at 0. */
module Pager {
  import opened Catalog

  /** How many pictures of one label a page shows at most. */
  const PerLabel: nat := 5
  /** How far the back button moves each cursor. */
  const BackStep: nat := 10

  function Min(a: int, b: int): int {
    if a <= b then a else b
  }

  /** How many pictures a page takes from a catalog of `len` pictures when
      the cursor stands at `cursor`. */
  function Taken(len: nat, cursor: nat): (n: nat)
    requires cursor <= len
    ensures n <= PerLabel && cursor + n <= len
    ensures n == PerLabel || cursor + n == len
  {
    Min(PerLabel, len - cursor)
  }

  /** The pictures a page takes from `catalog`, in catalog order. */
  function Slice(catalog: seq<string>, cursor: nat): (s: seq<string>)
    requires cursor <= |catalog|
    ensures |s| == Taken(|catalog|, cursor)
    ensures forall k :: 0 <= k < |s| ==> s[k] == catalog[cursor + k]
  {
    catalog[cursor..cursor + Taken(|catalog|, cursor)]
  }

  /** The cursor after a page: moved past what was taken, or back to 0 once
      it reaches the end of the catalog. */
  function Advance(len: nat, cursor: nat): (next: nat)
    requires cursor <= len
    ensures next < len || (len == 0 && next == 0)
    ensures next == 0 || next == cursor + PerLabel
    ensures next == 0 <==> cursor + PerLabel >= len
  {
    var moved := cursor + Taken(len, cursor);
    if moved >= len then 0 else moved
  }

  /** The back button: each cursor goes down by ten, stopping at 0. */
  function Retreat(cursor: nat): (prev: nat)
    ensures prev <= cursor
    ensures prev == 0 || prev + BackStep == cursor
    ensures prev == 0 <==> cursor <= BackStep
  {
    if cursor >= BackStep then cursor - BackStep else 0
  }

  /** Paths labelled as test entries. */
  function Labelled(paths: seq<string>, actual: Label): (entries: seq<Entry>)
    ensures |entries| == |paths|
    ensures forall k :: 0 <= k < |paths| ==> entries[k] == Entry(paths[k], actual)
  {
    seq(|paths|, k requires 0 <= k < |paths| => Entry(paths[k], actual))
  }

  /** The page shown for cursors `catCursor` and `dogCursor`: the cats taken,
      then the dogs taken, each in catalog order. */
  function Page(cats: seq<string>, dogs: seq<string>, catCursor: nat, dogCursor: nat): (page: seq<Entry>)
    requires catCursor <= |cats| && dogCursor <= |dogs|
    ensures |page| == Taken(|cats|, catCursor) + Taken(|dogs|, dogCursor) <= 2 * PerLabel
    ensures forall k :: 0 <= k < Taken(|cats|, catCursor) ==>
              page[k] == Entry(cats[catCursor + k], Cat)
    ensures forall k :: Taken(|cats|, catCursor) <= k < |page| ==>
              page[k] == Entry(dogs[dogCursor + k - Taken(|cats|, catCursor)], Dog)
  {
    Labelled(Slice(cats, catCursor), Cat) + Labelled(Slice(dogs, dogCursor), Dog)
  }

  /** Every cat on a page comes before every dog. */
  lemma CatsBeforeDogs(cats: seq<string>, dogs: seq<string>, c: nat, d: nat, i: nat, j: nat)
    requires c <= |cats| && d <= |dogs|
    requires i < j < |Page(cats, dogs, c, d)|
    ensures Page(cats, dogs, c, d)[j].actualLabel == Cat ==> Page(cats, dogs, c, d)[i].actualLabel == Cat
  {
  }

  /** A page is empty only when both catalogs are. */
  lemma PageNonEmpty(cats: seq<string>, dogs: seq<string>, c: nat, d: nat)
    requires c < |cats| || d < |dogs|
    requires c <= |cats| && d <= |dogs|
    ensures |Page(cats, dogs, c, d)| > 0
  {
  }

  /** The cursor after `k` pages, starting from 0 as after loading a model. */
  function CursorAfter(len: nat, k: nat): (cursor: nat)
    ensures cursor < len || cursor == 0
    decreases k
  {
    if k == 0 then 0 else Advance(len, CursorAfter(len, k - 1))
  }

  /** Number of pages in one pass over a catalog of `len` pictures. */
  function PagesPerPass(len: nat): nat {
    (len + PerLabel - 1) / PerLabel
  }

  /** While a full page fits, page `k` starts at picture `5 * k`. */
  lemma {:induction false} CursorAfterFullPages(len: nat, k: nat)
    requires PerLabel * k < len
    ensures CursorAfter(len, k) == PerLabel * k
    decreases k
  {
    if k > 0 {
      CursorAfterFullPages(len, k - 1);
    }
  }

  /** After one pass the cursor is back at 0, and not before. */
  lemma CursorWrapsAfterPass(len: nat, k: nat)
    requires len > 0 && 0 < k <= PagesPerPass(len)
    ensures CursorAfter(len, k) == 0 <==> k == PagesPerPass(len)
  {
    var p := PagesPerPass(len);
    assert PerLabel * (p - 1) < len <= PerLabel * p;
    CursorAfterFullPages(len, k - 1);
  }

  /** The cursor sequence is periodic: one pass later the same page comes
      back. */
  lemma {:induction false} CursorPeriodic(len: nat, k: nat)
    requires len > 0
    ensures CursorAfter(len, k + PagesPerPass(len)) == CursorAfter(len, k)
    decreases k
  {
    if k == 0 {
      CursorWrapsAfterPass(len, PagesPerPass(len));
    } else {
      CursorPeriodic(len, k - 1);
    }
  }

  /** No picture is skipped: picture `j` is on the page shown when the
      cursor stands at `5 * (j / 5)`, which one pass reaches. */
  lemma EveryPictureShown(catalog: seq<string>, j: nat)
    requires j < |catalog|
    ensures j / PerLabel < PagesPerPass(|catalog|)
    ensures CursorAfter(|catalog|, j / PerLabel) == PerLabel * (j / PerLabel)
    ensures Slice(catalog, PerLabel * (j / PerLabel))[j % PerLabel] == catalog[j]
  {
    CursorAfterFullPages(|catalog|, j / PerLabel);
  }

  /** The page shown after `k` earlier pages, both cursors starting at 0. */
  function PageAfter(cats: seq<string>, dogs: seq<string>, k: nat): seq<Entry> {
    Page(cats, dogs, CursorAfter(|cats|, k), CursorAfter(|dogs|, k))
  }

  /** With the two 104-picture catalogs the first twenty pages are full. */
  lemma FullPagesOfCatalog(cats: seq<string>, dogs: seq<string>, k: nat)
    requires |cats| == 104 && |dogs| == 104 && k < 20
    ensures |PageAfter(cats, dogs, k)| == 2 * PerLabel
  {
    CursorAfterFullPages(104, k);
  }

  /** The twenty-first page holds the last four cats and the last four
      dogs. */
  lemma LastPageOfCatalog(cats: seq<string>, dogs: seq<string>)
    requires |cats| == 104 && |dogs| == 104
    ensures PageAfter(cats, dogs, 20) == Labelled(cats[100..], Cat) + Labelled(dogs[100..], Dog)
  {
    CursorAfterFullPages(104, 20);
    assert Slice(cats, 100) == cats[100..];
    assert Slice(dogs, 100) == dogs[100..];
  }

  /** The twenty-second page is the first page again. */
  lemma CatalogCycleCloses(cats: seq<string>, dogs: seq<string>)
    requires |cats| == 104 && |dogs| == 104
    ensures PageAfter(cats, dogs, 21) == PageAfter(cats, dogs, 0)
  {
    assert PagesPerPass(104) == 21;
    CursorWrapsAfterPass(104, 21);
  }

  /** Catalogs of eight pictures each: cats 0-4 with dogs 0-4, then cats
      5-7 with dogs 5-7, then the first page again. */
  lemma EightPictureCycle(cats: seq<string>, dogs: seq<string>)
    requires |cats| == 8 && |dogs| == 8
    ensures PageAfter(cats, dogs, 0) == Labelled(cats[..5], Cat) + Labelled(dogs[..5], Dog)
    ensures CursorAfter(8, 1) == 5
    ensures PageAfter(cats, dogs, 1) == Labelled(cats[5..], Cat) + Labelled(dogs[5..], Dog)
    ensures CursorAfter(8, 2) == 0
    ensures PageAfter(cats, dogs, 2) == PageAfter(cats, dogs, 0)
  {
  }

  /** For pages away from the catalog ends, back shows the page before the
      current one: the cursor stands one page past the current page's start
      `start`, and back moves it to the previous page's start. */
  lemma BackShowsPreviousPage(len: nat, start: nat)
    requires PerLabel <= start && start + PerLabel < len
    ensures Retreat(Advance(len, start)) == start - PerLabel
  {
  }

  /** After the last, partial page the cursor has wrapped to 0, so back
      shows the first page rather than the one before the last. */
  lemma BackAfterWrapShowsFirstPage(len: nat)
    requires len > 0
    ensures Retreat(CursorAfter(len, PagesPerPass(len))) == 0
  {
    CursorWrapsAfterPass(len, PagesPerPass(len));
  }

  /** The back button is disabled once a page is classified while both
      cursors are at most 5. */
  predicate BackDisabled(catCursor: nat, dogCursor: nat) {
    catCursor <= PerLabel && dogCursor <= PerLabel
  }

  /** When the back button is disabled, going back would only show the first
      page again. */
  lemma DisabledBackIsFirstPage(catCursor: nat, dogCursor: nat)
    requires BackDisabled(catCursor, dogCursor)
    ensures Retreat(catCursor) == 0 && Retreat(dogCursor) == 0
  {
  }

  /** Over one pass, the back button is disabled exactly on the first page
      and on the last one (where the cursor has wrapped to 0). */
  lemma BackDisabledPages(len: nat, k: nat)
    requires len > 0 && 1 <= k <= PagesPerPass(len)
    ensures BackDisabled(CursorAfter(len, k), CursorAfter(len, k)) <==> k == 1 || k == PagesPerPass(len)
  {
    var p := PagesPerPass(len);
    assert PerLabel * (p - 1) < len <= PerLabel * p;
    CursorWrapsAfterPass(len, k);
    if k < p {
      CursorAfterFullPages(len, k);
    }
  }
}
