/** Day 9 (day09/src/main.rs): a disk map of alternating file and free-space
    runs is expanded into blocks, file blocks are moved from the end into the
    gaps at the front, and a checksum is taken. */
module Day09 {
  import opened Wrappers
  import opened Parse

  /** One run of the disk map: `Some(id)` for a file, `None` for free space, and its length. */
  type Run = (Option<nat>, nat)

  /** `parse_char`: the character printed and read back as a `usize`; `None` where the source panics. */
  function ParseChar(c: char): Option<nat> {
    ParseUnsigned([c], USIZE_MAX)
  }

  /** Exactly the ten decimal digits parse, each to its value. */
  lemma ParseCharSpec(c: char)
    ensures ParseChar(c).Some? <==> IsDigit(c)
    ensures ParseChar(c).Some? ==> ParseChar(c).value == DigitValue(c)
  {
    assert [c][1..] == [];
    if IsDigit(c) {
      assert [c][..0] == [];
      assert DecimalValue([c]) == DigitValue(c);
    }
  }

  /** `parse_input`: characters alternate between file and free-space
      lengths, and files are numbered 0, 1, 2, ... in order. `None` where a
      character is not a digit (the source panics there). */
  method ParseInput(line: string) returns (r: Option<seq<Run>>)
    ensures r.Some? <==> AllDigits(line)
    ensures r.Some? ==> |r.value| == |line|
    ensures r.Some? ==> forall k :: 0 <= k < |line| ==>
      r.value[k] == (if k % 2 == 0 then Some(k / 2) else None, DigitValue(line[k]))
  {
    var fileDesc: seq<Run> := [];
    var fileId: nat := 0;
    var pos := 0;
    while pos < |line|
      invariant pos <= |line| && pos % 2 == 0 && fileId == pos / 2
      invariant AllDigits(line[..pos]) && |fileDesc| == pos
      invariant forall k :: 0 <= k < pos ==>
        fileDesc[k] == (if k % 2 == 0 then Some(k / 2) else None, DigitValue(line[k]))
    {
      ParseCharSpec(line[pos]);
      var fileLen := ParseChar(line[pos]);
      if fileLen.None? {
        return None;
      }
      fileDesc := fileDesc + [(Some(fileId), fileLen.value)];
      fileId := fileId + 1;
      if pos + 1 < |line| {
        ParseCharSpec(line[pos + 1]);
        var spaceLen := ParseChar(line[pos + 1]);
        if spaceLen.None? {
          return None;
        }
        fileDesc := fileDesc + [(None, spaceLen.value)];
        pos := pos + 2;
      } else {
        pos := pos + 1;
        break;
      }
    }
    assert line[..pos] == line;
    return Some(fileDesc);
  }

  /** `count` copies of `v`. */
  function Repeat<T>(v: T, count: nat): (r: seq<T>)
    ensures |r| == count && forall i :: 0 <= i < count ==> r[i] == v
  {
    seq(count, _ => v)
  }

  /** The blocks of a disk map: each run's value repeated its length, run after run. */
  function Expand(input: seq<Run>): seq<Option<nat>>
    decreases |input|
  {
    if input == [] then [] else
      var (v, count) := input[|input| - 1];
      Expand(input[..|input| - 1]) + Repeat(v, count)
  }

  /** The sum of the run lengths. */
  function TotalLength(input: seq<Run>): nat
    decreases |input|
  {
    if input == [] then 0 else TotalLength(input[..|input| - 1]) + input[|input| - 1].1
  }

  /** `expand_disk_map`. */
  method ExpandDiskMap(input: seq<Run>) returns (diskMap: seq<Option<nat>>)
    ensures diskMap == Expand(input)
  {
    diskMap := [];
    for i := 0 to |input|
      invariant diskMap == Expand(input[..i])
    {
      assert input[..i + 1][..i] == input[..i];
      var (v, count) := input[i];
      diskMap := diskMap + Repeat(v, count);
    }
    assert input[..|input|] == input;
  }

  /** The expanded map is as long as all runs together. */
  lemma {:induction false} ExpandLength(input: seq<Run>)
    ensures |Expand(input)| == TotalLength(input)
    decreases |input|
  {
    if input != [] {
      ExpandLength(input[..|input| - 1]);
    }
  }

  /** A block value occurs exactly when some non-empty run has it. */
  lemma {:induction false} ExpandMember(input: seq<Run>, x: Option<nat>)
    ensures x in Expand(input) <==> exists i :: 0 <= i < |input| && input[i].0 == x && input[i].1 > 0
    decreases |input|
  {
    if input != [] {
      var init := input[..|input| - 1];
      ExpandMember(init, x);
      if exists i :: 0 <= i < |init| && init[i].0 == x && init[i].1 > 0 {
        var i :| 0 <= i < |init| && init[i].0 == x && init[i].1 > 0;
        assert input[i] == init[i];
      }
      if exists i :: 0 <= i < |input| && input[i].0 == x && input[i].1 > 0 {
        var i :| 0 <= i < |input| && input[i].0 == x && input[i].1 > 0;
        if i < |init| {
          assert input[i] == init[i];
        } else {
          assert Repeat(input[i].0, input[i].1)[0] == x;
        }
      }
    }
  }

  /** The file ids of the used blocks, in order: the `filter_map` of the checksum. */
  function Files(d: seq<Option<nat>>): (r: seq<nat>)
    ensures |r| <= |d|
    decreases |d|
  {
    if d == [] then [] else
      Files(d[..|d| - 1]) + match d[|d| - 1] case None => [] case Some(id) => [id]
  }

  /** Sum of `k * fs[k]`: the `enumerate().map().sum()` of the checksum. */
  function WeightedSum(fs: seq<nat>): nat
    decreases |fs|
  {
    if fs == [] then 0 else WeightedSum(fs[..|fs| - 1]) + (|fs| - 1) * fs[|fs| - 1]
  }

  /** `calculate_disk_checksum`: used blocks are numbered after the free ones are dropped. */
  function DiskChecksum(d: seq<Option<nat>>): nat {
    WeightedSum(Files(d))
  }

  /** The puzzle's checksum: block position times file id, free blocks contributing nothing. */
  function PositionalSum(d: seq<Option<nat>>): nat
    decreases |d|
  {
    if d == [] then 0 else
      PositionalSum(d[..|d| - 1]) + match d[|d| - 1] case None => 0 case Some(id) => (|d| - 1) * id
  }

  /** No used block after a free one. */
  predicate Compacted(d: seq<Option<nat>>) {
    forall i, j :: 0 <= i < j < |d| && d[i].None? ==> d[j].None?
  }

  /** On a compacted disk, numbering used blocks among themselves is numbering
      them by position, so the checksum is the puzzle's positional sum. */
  lemma {:induction false} CompactedChecksum(d: seq<Option<nat>>)
    requires Compacted(d)
    ensures DiskChecksum(d) == PositionalSum(d)
    decreases |d|
  {
    if d != [] {
      var init := d[..|d| - 1];
      assert Compacted(init);
      CompactedChecksum(init);
      if d[|d| - 1].Some? {
        forall i | 0 <= i < |init| ensures init[i].Some? {
          assert d[i] == init[i];
        }
        AllUsed(init);
        var fs := Files(init);
        var id := d[|d| - 1].value;
        assert Files(d) == fs + [id];
        assert (fs + [id])[..|fs|] == fs;
        assert WeightedSum(fs + [id]) == WeightedSum(fs) + |fs| * id;
      } else {
        assert Files(d) == Files(init) + [] == Files(init);
        assert PositionalSum(d) == PositionalSum(init) + 0;
      }
    }
  }

  /** A disk without free blocks lists one file id per block. */
  lemma {:induction false} AllUsed(d: seq<Option<nat>>)
    requires forall i :: 0 <= i < |d| ==> d[i].Some?
    ensures |Files(d)| == |d|
    decreases |d|
  {
    if d != [] {
      AllUsed(d[..|d| - 1]);
    }
  }

  /** The checksum is blind to free blocks: only the order of the used ones counts. */
  lemma {:induction false} ChecksumIgnoresFree(d: seq<Option<nat>>, e: seq<Option<nat>>)
    ensures Files(d + [None] + e) == Files(d + e)
    ensures DiskChecksum(d + [None] + e) == DiskChecksum(d + e)
    decreases |e|
  {
    if e == [] {
      assert (d + [None] + e)[..|d|] == d + e;
    } else {
      var init := e[..|e| - 1];
      ChecksumIgnoresFree(d, init);
      assert (d + [None] + e)[..|d + [None] + e| - 1] == d + [None] + init;
      assert (d + e)[..|d + e| - 1] == d + init;
    }
  }

  /** Moving a file block into a free block, emptying the file block, keeps the blocks as a multiset. */
  lemma MoveKeepsBlocks(d: seq<Option<nat>>, s: nat, e: nat)
    requires s < |d| && e < |d| && d[s].None? && d[e].Some?
    ensures multiset(d[s := d[e]][e := None]) == multiset(d)
  {
    assert d[s := d[e]][e := None] == d[s := d[e]][e := d[s]];
  }

  /** What the compaction may do: keep the length and the blocks, leave no
      used block after a free one, and change a block only by filling a free
      one or emptying a used one. */
  ghost predicate IsCompaction(before: seq<Option<nat>>, after: seq<Option<nat>>) {
    |after| == |before| && multiset(after) == multiset(before) && Compacted(after) &&
    forall i :: 0 <= i < |after| && after[i] != before[i] ==> before[i].None? || after[i].None?
  }

  /** The first free block at or after `i`; `None` where the source's scan
      runs past the end and `unwrap` panics. */
  function ScanFree(d: seq<Option<nat>>, i: nat): (r: Option<nat>)
    ensures r.Some? ==> i <= r.value < |d| && d[r.value].None?
    decreases |d| - i
  {
    if i >= |d| then None
    else if d[i].None? then Some(i)
    else ScanFree(d, i + 1)
  }

  /** The last used block at or before `j`; `None` where the source steps
      below 0 and the `usize` subtraction panics. */
  function ScanFile(d: seq<Option<nat>>, j: nat): (r: Option<nat>)
    requires j < |d|
    ensures r.Some? ==> r.value <= j && d[r.value].Some?
    decreases j
  {
    if d[j].Some? then Some(j)
    else if j == 0 then None
    else ScanFile(d, j - 1)
  }

  /** The compaction loop of `calculate_p1` as written, from indices
      `start` and `end`: the two inner scans are not bounded by each other, so
      they can run off the disk. `None` is a panic. */
  function RunAsWritten(d: seq<Option<nat>>, start: nat, end: nat): Option<seq<Option<nat>>>
    requires end < |d|
    decreases |d| - start
  {
    if start >= end then Some(d)
    else match ScanFree(d, start)
      case None => None
      case Some(s) =>
        match ScanFile(d, end)
        case None => None
        case Some(e) =>
          if e == 0 then None
          else RunAsWritten(d[s := d[e]][e := None], s + 1, e - 1)
  }

  /** The compaction of `calculate_p1` as written; `disk_map.len() - 1` panics on an empty disk. */
  function CompactAsWritten(d: seq<Option<nat>>): Option<seq<Option<nat>>> {
    if d == [] then None else RunAsWritten(d, 0, |d| - 1)
  }

  /** Whenever the loop as written returns, it has kept the length and the blocks. */
  lemma {:induction false} RunAsWrittenKeepsBlocks(d: seq<Option<nat>>, start: nat, end: nat)
    requires end < |d| && RunAsWritten(d, start, end).Some?
    ensures |RunAsWritten(d, start, end).value| == |d|
    ensures multiset(RunAsWritten(d, start, end).value) == multiset(d)
    decreases |d| - start
  {
    if start < end {
      var s := ScanFree(d, start).value;
      var e := ScanFile(d, end).value;
      MoveKeepsBlocks(d, s, e);
      RunAsWrittenKeepsBlocks(d[s := d[e]][e := None], s + 1, e - 1);
    }
  }

  /** One file block followed by one free block (disk map `11`): the scans
      cross, the file is moved right, and the end index drops below 0. */
  lemma OneFileOneGapPanics()
    ensures CompactAsWritten([Some(0), None]) == None
  {
    assert ScanFree([Some(0), None], 0) == Some(1);
    assert ScanFile([Some(0), None], 1) == Some(0);
  }

  /** Two files and no free block (disk map `101`): the scan for a free block runs off the disk. */
  lemma NoGapPanics()
    ensures CompactAsWritten([Some(0), Some(1)]) == None
  {
    assert ScanFree([Some(0), Some(1)], 0) == None;
  }

  /** What the compaction loop knows: blocks before `start` are used, blocks
      after `end` are free, blocks in between are untouched, and so far it has
      only moved used blocks into free ones. */
  ghost predicate Scanned(d: seq<Option<nat>>, orig: seq<Option<nat>>, start: int, end: int) {
    |d| == |orig| && 0 <= start <= |d| && -1 <= end < |d| && start <= end + 1 &&
    (forall i :: 0 <= i < start ==> d[i].Some?) &&
    (forall i :: end < i < |d| ==> d[i].None?) &&
    (forall i :: start <= i <= end ==> d[i] == orig[i]) &&
    multiset(d) == multiset(orig) &&
    (forall i :: 0 <= i < |d| && d[i] != orig[i] ==> orig[i].None? || d[i].None?)
  }

  /** Moving the last used block into the first free one keeps what the loop knows. */
  lemma MoveStep(d: seq<Option<nat>>, orig: seq<Option<nat>>, s: int, e: int)
    requires Scanned(d, orig, s, e) && s < e && d[s].None? && d[e].Some?
    ensures Scanned(d[s := d[e]][e := None], orig, s + 1, e - 1)
  {
    MoveKeepsBlocks(d, s, e);
  }

  /** Once the indices meet, the disk is a compaction of the original. */
  lemma ScannedDone(d: seq<Option<nat>>, orig: seq<Option<nat>>, s: int, e: int)
    requires Scanned(d, orig, s, e) && s >= e
    ensures IsCompaction(orig, d)
  {
  }

  /** The compaction with both scans kept below the crossing point, as
      intended: it never fails and leaves a compaction of the disk. */
  method Compact(disk: array<Option<nat>>)
    modifies disk
    ensures IsCompaction(old(disk[..]), disk[..])
  {
    if disk.Length == 0 {
      return;
    }
    var startIdx: int := 0;
    var endIdx: int := disk.Length - 1;
    while startIdx < endIdx
      invariant Scanned(disk[..], old(disk[..]), startIdx, endIdx)
      decreases endIdx - startIdx
    {
      while startIdx < endIdx && disk[startIdx].Some?
        invariant Scanned(disk[..], old(disk[..]), startIdx, endIdx)
        decreases endIdx - startIdx
      {
        startIdx := startIdx + 1;
      }
      while startIdx < endIdx && disk[endIdx].None?
        invariant Scanned(disk[..], old(disk[..]), startIdx, endIdx)
        decreases endIdx - startIdx
      {
        endIdx := endIdx - 1;
      }
      if startIdx < endIdx {
        ghost var d := disk[..];
        MoveStep(d, old(disk[..]), startIdx, endIdx);
        disk[startIdx] := disk[endIdx];
        disk[endIdx] := None;
        assert disk[..] == d[startIdx := d[endIdx]][endIdx := None];
        startIdx := startIdx + 1;
        endIdx := endIdx - 1;
      }
    }
    ScannedDone(disk[..], old(disk[..]), startIdx, endIdx);
  }

  /** `calculate_p1`: expand, compact, checksum. */
  method CalculateP1(input: seq<Run>) returns (r: nat)
    ensures exists d :: IsCompaction(Expand(input), d) && r == DiskChecksum(d)
  {
    var blocks := ExpandDiskMap(input);
    var disk := new Option<nat>[|blocks|](i requires 0 <= i < |blocks| => blocks[i]);
    assert disk[..] == blocks;
    Compact(disk);
    r := DiskChecksum(disk[..]);
  }

  /** `calculate_p2` is a stub returning 0. */
  function CalculateP2(input: seq<Run>): (r: nat)
    ensures r == 0
  {
    0
  }
}
