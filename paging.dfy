/**
 * Table-grid paging shared by the table overview and the new-order dialog
 * (project/src/components/TableManagement.tsx:23-24, 77, 87 and
 * project/src/components/NewOrderModal.tsx:17-18, 104, 114): sections of 12
 * tables, `Math.ceil` for the section count, `Array.prototype.slice` for a
 * section, and Previous/Next clamped with `Math.max`/`Math.min`.
 */
module Paging {

  const PageSize: nat := 12

  /** `Math.ceil(n / 12)`. */
  function TotalSections(n: nat): (r: nat)
    ensures (r - 1) * PageSize < n <= r * PageSize || (n == 0 && r == 0)
  {
    (n + PageSize - 1) / PageSize
  }

  /** How `slice` resolves one bound: negative counts from the end, and the result is clamped to `[0, len]`. */
  function SliceBound(b: int, len: nat): (r: nat)
    ensures r <= len
    ensures 0 <= b <= len ==> r == b
    ensures b > len ==> r == len
    ensures b < 0 ==> r == if len + b < 0 then 0 else len + b
  {
    if b < 0 then (if len + b < 0 then 0 else len + b)
    else if b > len then len
    else b
  }

  /** `s.slice(start, end)`. */
  function Slice<T>(s: seq<T>, start: int, end: int): (r: seq<T>)
    ensures |r| <= |s|
  {
    var from, to := SliceBound(start, |s|), SliceBound(end, |s|);
    if from < to then s[from..to] else []
  }

  /** The tables shown in a section: `tables.slice((section - 1) * 12, section * 12)`. */
  function Page<T>(s: seq<T>, section: int): seq<T>
  {
    Slice(s, (section - 1) * PageSize, section * PageSize)
  }

  /** The Previous button: `Math.max(1, prev - 1)`. */
  function Previous(section: int): int
  {
    if section - 1 < 1 then 1 else section - 1
  }

  /** The Next button: `Math.min(totalSections, prev + 1)`. */
  function Next(section: int, totalSections: nat): int
  {
    if section + 1 < totalSections then section + 1 else totalSections
  }

  /** A section inside the range shows the twelve tables from `(section - 1) * 12`, fewer only at the end, never none. */
  lemma PageContents<T>(s: seq<T>, section: int)
    requires 1 <= section <= TotalSections(|s|)
    ensures (section - 1) * PageSize < |s|
    ensures Page(s, section) == s[(section - 1) * PageSize .. if section * PageSize < |s| then section * PageSize else |s|]
    ensures 0 < |Page(s, section)| <= PageSize
  {
    assert (section - 1) * PageSize < |s| by {
      assert (TotalSections(|s|) - 1) * PageSize < |s|;
      assert (section - 1) * PageSize <= (TotalSections(|s|) - 1) * PageSize;
    }
  }

  /** The first `k` sections, laid end to end. */
  function FirstSections<T>(s: seq<T>, k: nat): seq<T>
  {
    if k == 0 then [] else FirstSections(s, k - 1) + Page(s, k)
  }

  /** The first `k` sections are exactly the first `12 * k` tables (all of them when fewer). */
  lemma {:induction false} FirstSectionsPrefix<T>(s: seq<T>, k: nat)
    ensures FirstSections(s, k) == s[..if k * PageSize < |s| then k * PageSize else |s|]
  {
    if k > 0 {
      FirstSectionsPrefix(s, k - 1);
      var lo := if (k - 1) * PageSize < |s| then (k - 1) * PageSize else |s|;
      var hi := if k * PageSize < |s| then k * PageSize else |s|;
      assert Page(s, k) == s[lo..hi];
      assert s[..lo] + s[lo..hi] == s[..hi];
    }
  }

  /** The sections partition the table list: laid end to end, they give the list back in order. */
  lemma SectionsPartition<T>(s: seq<T>)
    ensures FirstSections(s, TotalSections(|s|)) == s
  {
    FirstSectionsPrefix(s, TotalSections(|s|));
  }

  /** Previous and Next keep a section inside `[1, totalSections]`. */
  lemma NavigationClamped(section: int, totalSections: nat)
    requires 1 <= section <= totalSections
    ensures 1 <= Previous(section) <= section
    ensures section <= Next(section, totalSections) <= totalSections
    ensures 1 <= Next(section, totalSections)
  {
  }

  /** Previous never goes below section 1, from anywhere. */
  lemma PreviousAtLeastOne(section: int)
    ensures Previous(section) >= 1
    ensures section > 1 ==> Previous(section) == section - 1
  {
  }

  /** With no tables at all, Next (enabled, since `1 != 0`) moves to section 0, whose page is empty. */
  lemma NextWithNoTables<T>(s: seq<T>)
    requires s == []
    ensures TotalSections(|s|) == 0
    ensures Next(1, TotalSections(|s|)) == 0
    ensures Page(s, 0) == []
  {
  }
}
