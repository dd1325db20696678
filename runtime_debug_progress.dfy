/** Execution-progress tracking (src/runtime/runtime-debug.cc).
    Every progress step packs the running function's script id and start
    position into one 64-bit entry; the entries collected since the last
    hand-over are given to the recorder, and when a recorded and a replayed
    buffer disagree the first mismatch is reported.
    C++ `int` and `uint64_t` are bounded integers here; the conversions
    between them (sign extension, truncation, the 32-bit shift and the
    bitwise or) are written out. */
module ProgressEntries {
  import opened Wrappers
  import Decimal
  import LocationStrings

  const TwoTo31: int := 0x8000_0000
  const TwoTo32: int := 0x1_0000_0000

  /** A C++ `int`. */
  type Int32 = x: int | -0x8000_0000 <= x < 0x8000_0000

  /** A 32-bit unsigned word. */
  type Word32 = x: int | 0 <= x < 0x1_0000_0000

  /** A C++ `uint64_t`, as its high and low 32-bit halves: its value is
      `high * 2^32 + low`, and the shift and bitwise or below act on the
      halves exactly as the 64-bit operators do. */
  datatype Uint64 = Uint64(high: Word32, low: Word32)

  /** One progress entry. */
  type Entry = Uint64

  function Value(v: Uint64): (n: nat)
    ensures n < TwoTo32 * TwoTo32
  {
    v.high * TwoTo32 + v.low
  }

  function Pow2(k: nat): (p: nat)
    ensures p >= 1
  {
    if k == 0 then 1 else 2 * Pow2(k - 1)
  }

  /** Bitwise or of two non-negative integers, bit by bit from the lowest. */
  function BitOr(a: nat, b: nat): nat
    decreases a + b
  {
    if a == 0 then b
    else if b == 0 then a
    else 2 * BitOr(a / 2, b / 2) + (if a % 2 == 1 || b % 2 == 1 then 1 else 0)
  }

  /** `|` on 32-bit words. */
  function Or32(a: Word32, b: Word32): (r: Word32)
    ensures b == 0 ==> r == a
    ensures a == 0 ==> r == b
    ensures b == TwoTo32 - 1 ==> r == TwoTo32 - 1
  {
    Pow2Of32();
    BitOrBound(32, a, b);
    if b == TwoTo32 - 1 then BitOrAllOnes(32, a); BitOr(a, b) else BitOr(a, b)
  }

  /** `|` on `uint64_t`. */
  function Or64(v: Uint64, w: Uint64): Uint64 {
    Uint64(Or32(v.high, w.high), Or32(v.low, w.low))
  }

  /** `<< 32` on `uint64_t`: the high half is shifted out. */
  function ShiftLeft32(v: Uint64): (r: Uint64)
    ensures Value(r) == (Value(v) * TwoTo32) % (TwoTo32 * TwoTo32)
  {
    Uint64(v.low, 0)
  }

  /** `static_cast<uint64_t>(int)`: two's complement, sign-extended. */
  function ToUint64(x: Int32): (v: Uint64)
    ensures x >= 0 ==> Value(v) == x
    ensures x < 0 ==> Value(v) == x + TwoTo32 * TwoTo32
  {
    if x < 0 then Uint64(TwoTo32 - 1, x + TwoTo32) else Uint64(0, x)
  }

  /** `static_cast<int>` of a 32-bit word: read as two's complement. */
  function ToInt32(w: Word32): (x: Int32)
    ensures x % TwoTo32 == w
  {
    if w >= TwoTo31 then w - TwoTo32 else w
  }

  /** `BuildScriptProgressEntry`: `(uint64_t(script_id) << 32) | uint64_t(start_position)`. */
  function BuildScriptProgressEntry(scriptId: Int32, startPosition: Int32): (v: Entry)
    ensures v.low == startPosition % TwoTo32
    ensures v.high == if startPosition >= 0 then scriptId % TwoTo32 else TwoTo32 - 1
  {
    Or64(ShiftLeft32(ToUint64(scriptId)), ToUint64(startPosition))
  }

  /** The script id half of an entry: `static_cast<int>(v >> 32)`. */
  function EntryScriptId(v: Entry): Int32 {
    ToInt32(v.high)
  }

  /** The start position half of an entry: `static_cast<int>(v)`. */
  function EntryStartPosition(v: Entry): Int32 {
    ToInt32(v.low)
  }

  // ---------------------------------------------------------------------
  // Bitwise or

  /** Or-ing a k-bit value into all k ones leaves all ones. */
  lemma {:induction false} BitOrAllOnes(k: nat, x: nat)
    requires x < Pow2(k)
    ensures BitOr(x, Pow2(k) - 1) == Pow2(k) - 1
  {
    if k > 0 && x > 0 {
      var ones := Pow2(k) - 1;
      assert ones / 2 == Pow2(k - 1) - 1 && ones % 2 == 1;
      BitOrAllOnes(k - 1, x / 2);
    }
  }

  /** Or-ing two k-bit values gives a k-bit value. */
  lemma {:induction false} BitOrBound(k: nat, a: nat, b: nat)
    requires a < Pow2(k) && b < Pow2(k)
    ensures BitOr(a, b) < Pow2(k)
  {
    if k > 0 && a > 0 && b > 0 {
      BitOrBound(k - 1, a / 2, b / 2);
    }
  }

  lemma {:induction false} Pow2Add(a: nat, b: nat)
    ensures Pow2(a + b) == Pow2(a) * Pow2(b)
  {
    if b > 0 {
      Pow2Add(a, b - 1);
      assert Pow2(a + b) == 2 * Pow2(a + b - 1);
    }
  }

  lemma Pow2Of32()
    ensures Pow2(32) == TwoTo32
  {
    assert Pow2(8) == 256;
    Pow2Add(8, 8);
    Pow2Add(16, 16);
  }

  /** Unpacking a packed entry gives the start position back, always, and the
      script id back whenever the start position is not negative; a negative
      start position's sign extension overwrites the id with all ones (-1). */
  lemma EntryRoundTrip(scriptId: Int32, startPosition: Int32)
    ensures EntryStartPosition(BuildScriptProgressEntry(scriptId, startPosition)) == startPosition
    ensures EntryScriptId(BuildScriptProgressEntry(scriptId, startPosition))
              == if startPosition >= 0 then scriptId else -1
  {
  }

  /** For the ids and positions V8 hands out (non-negative), the entry is
      simply `scriptId * 2^32 + startPosition`. */
  lemma EntryOfNonNegative(scriptId: Int32, startPosition: Int32)
    requires scriptId >= 0 && startPosition >= 0
    ensures Value(BuildScriptProgressEntry(scriptId, startPosition)) == scriptId * TwoTo32 + startPosition
  {
  }

  /** Distinct functions (non-negative script id and start position) get
      distinct entries. */
  lemma EntryInjective(s1: Int32, p1: Int32, s2: Int32, p2: Int32)
    requires s1 >= 0 && p1 >= 0 && s2 >= 0 && p2 >= 0
    requires BuildScriptProgressEntry(s1, p1) == BuildScriptProgressEntry(s2, p2)
    ensures s1 == s2 && p1 == p2
  {
    EntryRoundTrip(s1, p1);
    EntryRoundTrip(s2, p2);
  }

  // ---------------------------------------------------------------------
  // Describing entries

  /** runtime-debug.cc's own `GetScriptLocationString`: unlike the one in
      replay-util.cc it has no "(no script)" case. */
  function EntryLocationString(scriptId: int, at: LocationStrings.ScriptPosition): (r: string)
    ensures r != LocationStrings.NoScript
    ensures Decimal.Atoi(r) == scriptId
  {
    var name := LocationStrings.ScriptName(at.name);
    LocationStrings.NoScriptIsNoLocation(scriptId, name, at.info);
    var tail := LocationStrings.LocationTail(name, at.info);
    assert tail[0] == ':';
    Decimal.AtoiOfIntToString(scriptId, tail);
    LocationStrings.LocationText(scriptId, name, at.info)
  }

  /** `GetScriptProgressEntryString`: `locate` stands for looking the script
      up by id and converting the position. */
  function ProgressEntryString(v: Entry, locate: (int, int) -> LocationStrings.ScriptPosition): (r: string)
    ensures Decimal.Atoi(r) == EntryScriptId(v)
  {
    var scriptId := EntryScriptId(v);
    EntryLocationString(scriptId, locate(scriptId, EntryStartPosition(v)))
  }

  /** The two location formats agree whenever the script has a non-empty name. */
  lemma EntryLocationMatchesReplayUtil(scriptId: int, at: LocationStrings.ScriptPosition)
    requires LocationStrings.ScriptName(at.name) != ""
    ensures EntryLocationString(scriptId, at) == LocationStrings.ScriptLocationString(scriptId, at)
  {
  }

  /** Describing a packed entry describes the function it was built from. */
  lemma ProgressEntryStringOfBuilt(scriptId: Int32, startPosition: Int32,
                                   locate: (int, int) -> LocationStrings.ScriptPosition)
    requires startPosition >= 0
    ensures ProgressEntryString(BuildScriptProgressEntry(scriptId, startPosition), locate)
              == EntryLocationString(scriptId, locate(scriptId, startPosition))
  {
    EntryRoundTrip(scriptId, startPosition);
  }

  // ---------------------------------------------------------------------
  // Comparing recorded and replayed entries

  /** The all-zero entry, which the mismatch report uses for "no entry". */
  const NoEntry := Uint64(0, 0)

  /** What `RecordReplayCallbackAssertOnDataMismatch` reports: the index of
      the mismatching replayed entry counted from the end, and the recorded
      and replayed entries (`NoEntry` where one side has none). */
  datatype Mismatch = Mismatch(replayedIndex: nat, recorded: Entry, replayed: Entry)

  /** The length of the longest common prefix. */
  function CommonPrefixLength(a: seq<Entry>, b: seq<Entry>): (n: nat)
    ensures n <= |a| && n <= |b|
    ensures a[..n] == b[..n]
    ensures n < |a| && n < |b| ==> a[n] != b[n]
  {
    if a == [] || b == [] || a[0] != b[0] then 0
    else
      var n := 1 + CommonPrefixLength(a[1..], b[1..]);
      assert a[..n] == [a[0]] + a[1..][..n - 1];
      assert b[..n] == [b[0]] + b[1..][..n - 1];
      n
  }

  /** The report for a pair of entry sequences. */
  function MismatchReport(recorded: seq<Entry>, replayed: seq<Entry>): (r: Mismatch)
    ensures replayed != [] ==> r.replayedIndex < |replayed|
    ensures recorded == replayed ==> r == Mismatch(0, NoEntry, NoEntry)
  {
    var n := CommonPrefixLength(recorded, replayed);
    if n < |recorded| && n < |replayed| then Mismatch(|replayed| - n - 1, recorded[n], replayed[n])
    else if |recorded| < |replayed| then Mismatch(|replayed| - |recorded| - 1, NoEntry, replayed[|recorded|])
    else if |replayed| < |recorded| then Mismatch(0, recorded[|replayed|], NoEntry)
    else Mismatch(0, NoEntry, NoEntry)
  }

  /** `RecordReplayCallbackAssertOnDataMismatch`: walks both buffers, handing
      every equal entry to the describe callback (`described`, in order) and
      stopping at the first difference. */
  method OnDataMismatch(recorded: seq<Entry>, replayed: seq<Entry>)
    returns (described: seq<Entry>, report: Mismatch)
    ensures described == recorded[..CommonPrefixLength(recorded, replayed)]
    ensures report == MismatchReport(recorded, replayed)
  {
    var minSize := if |recorded| < |replayed| then |recorded| else |replayed|;
    described := [];
    var i := 0;
    while i < minSize
      invariant 0 <= i <= minSize
      invariant recorded[..i] == replayed[..i]
      invariant described == recorded[..i]
    {
      if recorded[i] == replayed[i] {
        described := described + [recorded[i]];
      } else {
        FirstDifferenceIsCommonPrefix(recorded, replayed, i);
        return described, Mismatch(|replayed| - i - 1, recorded[i], replayed[i]);
      }
      assert recorded[..i + 1] == recorded[..i] + [recorded[i]];
      assert replayed[..i + 1] == replayed[..i] + [replayed[i]];
      i := i + 1;
    }
    FirstDifferenceIsCommonPrefix(recorded, replayed, i);
    if |recorded| < |replayed| {
      report := Mismatch(|replayed| - |recorded| - 1, NoEntry, replayed[|recorded|]);
    } else if |replayed| < |recorded| {
      report := Mismatch(0, recorded[|replayed|], NoEntry);
    } else {
      report := Mismatch(0, NoEntry, NoEntry);
    }
  }

  /** Any index up to which two sequences agree and at which they then differ
      (or one of them ends) is their common prefix length. */
  lemma FirstDifferenceIsCommonPrefix(a: seq<Entry>, b: seq<Entry>, i: nat)
    requires i <= |a| && i <= |b| && a[..i] == b[..i]
    requires i == |a| || i == |b| || a[i] != b[i]
    ensures CommonPrefixLength(a, b) == i
  {
  }

  /** At the first index where the sequences differ, the report names both
      entries and how far from the end of the replayed buffer it lies. */
  lemma ReportAtFirstDifference(recorded: seq<Entry>, replayed: seq<Entry>, i: nat)
    requires i < |recorded| && i < |replayed| && recorded[..i] == replayed[..i]
    requires recorded[i] != replayed[i]
    ensures MismatchReport(recorded, replayed) == Mismatch(|replayed| - i - 1, recorded[i], replayed[i])
  {
    FirstDifferenceIsCommonPrefix(recorded, replayed, i);
  }

  /** A longer replayed buffer that extends the recorded one reports its first
      extra entry. */
  lemma ReportOfExtraReplayed(recorded: seq<Entry>, replayed: seq<Entry>)
    requires |recorded| < |replayed| && replayed[..|recorded|] == recorded
    ensures MismatchReport(recorded, replayed)
              == Mismatch(|replayed| - |recorded| - 1, NoEntry, replayed[|recorded|])
  {
    assert recorded[..|recorded|] == recorded;
    FirstDifferenceIsCommonPrefix(recorded, replayed, |recorded|);
  }

  /** A longer recorded buffer that extends the replayed one reports its first
      extra entry. */
  lemma ReportOfExtraRecorded(recorded: seq<Entry>, replayed: seq<Entry>)
    requires |replayed| < |recorded| && recorded[..|replayed|] == replayed
    ensures MismatchReport(recorded, replayed) == Mismatch(0, recorded[|replayed|], NoEntry)
  {
    assert replayed[..|replayed|] == replayed;
    FirstDifferenceIsCommonPrefix(recorded, replayed, |replayed|);
  }

  /** Equal buffers report `(0, 0, 0)`; when no entry is the all-zero value,
      only equal buffers do. */
  lemma ReportOfEqual(recorded: seq<Entry>, replayed: seq<Entry>)
    requires NoEntry !in recorded && NoEntry !in replayed
    ensures MismatchReport(recorded, replayed) == Mismatch(0, NoEntry, NoEntry) <==> recorded == replayed
  {
    var n := CommonPrefixLength(recorded, replayed);
    if recorded == replayed {
      assert recorded[..|recorded|] == recorded;
      FirstDifferenceIsCommonPrefix(recorded, replayed, |recorded|);
    } else if n < |recorded| && n < |replayed| {
    } else if |recorded| < |replayed| {
      assert replayed[|recorded|] in replayed;
    } else if |replayed| < |recorded| {
      assert recorded[|replayed|] in recorded;
    }
  }

  /** The all-zero entry is ambiguous: an extra replayed entry `0` (script 0,
      position 0) is reported exactly like equal buffers. */
  lemma ZeroEntryIsAmbiguous()
    ensures MismatchReport([], [NoEntry]) == MismatchReport([], [])
    ensures BuildScriptProgressEntry(0, 0) == NoEntry
  {
  }

  // ---------------------------------------------------------------------
  // The progress counter and the progress buffer

  /** A `uint64_t` counter value. */
  type Count64 = x: int | 0 <= x < 0x1_0000_0000_0000_0000

  const TwoTo64: int := 0x1_0000_0000_0000_0000

  /** `*gProgressCounter`, `gTargetProgress`, `gRecordReplayAssertProgress`,
      `gProgressData` and `gReportedProgressData` (a null vector is `None`). */
  class ProgressTracker {
    var counter: Count64
    var target: Count64
    var assertProgress: bool
    var progressData: Option<seq<Entry>>
    var reportedData: Option<seq<Entry>>

    constructor(target: Count64, assertProgress: bool)
      ensures this.counter == 0 && this.target == target
      ensures this.assertProgress == assertProgress
      ensures progressData == None && reportedData == None
    {
      counter := 0;
      this.target := target;
      this.assertProgress := assertProgress;
      progressData := None;
      reportedData := None;
    }

    /** The entries collected since the last hand-over. */
    function Pending(): seq<Entry>
      reads this
    {
      if progressData.Some? then progressData.value else []
    }

    /** The counting part of `Runtime_RecordReplayAssertExecutionProgress` for
        a function with the given script id and start position: the counter
        steps by one (wrapping like `uint64_t`), `targetReached` says whether
        the target callback runs, and with assert-progress on exactly one
        entry is appended. */
    method AssertExecutionProgress(scriptId: Int32, startPosition: Int32) returns (targetReached: bool)
      modifies this
      ensures counter == (old(counter) + 1) % TwoTo64
      ensures targetReached <==> counter == target
      ensures assertProgress ==>
                progressData == Some(old(Pending()) + [BuildScriptProgressEntry(scriptId, startPosition)])
      ensures !assertProgress ==> progressData == old(progressData)
      ensures target == old(target) && assertProgress == old(assertProgress)
      ensures reportedData == old(reportedData)
    {
      counter := (counter + 1) % TwoTo64;
      targetReached := counter == target;
      if assertProgress {
        if progressData.None? {
          progressData := Some([]);
        }
        progressData := Some(progressData.value + [BuildScriptProgressEntry(scriptId, startPosition)]);
      }
    }

    /** `RecordReplayCallbackAssertGetData`: on the main thread and with data
        pending, the pending buffer becomes the reported one (replacing the
        previous report) and is returned with its size in bytes; otherwise
        the size is 0 and nothing changes. */
    method AssertGetData(onMainThread: bool) returns (buffer: Option<seq<Entry>>, size: nat)
      modifies this
      ensures !onMainThread || old(progressData).None? ==>
                size == 0 && buffer == None && progressData == old(progressData)
                && reportedData == old(reportedData)
      ensures onMainThread && old(progressData).Some? ==>
                && reportedData == old(progressData) && progressData == None
                && buffer == old(progressData) && size == 8 * |old(progressData).value|
      ensures counter == old(counter) && target == old(target) && assertProgress == old(assertProgress)
    {
      if !onMainThread || progressData.None? {
        return None, 0;
      }
      reportedData := progressData;
      progressData := None;
      buffer := reportedData;
      size := |reportedData.value| * 8;
    }

    /** `Runtime_RecordReplayTargetProgressReached`: a CHECK that the target
        has been reached. */
    method TargetProgressReached() returns (r: Result<Count64>)
      ensures r.Ok? <==> counter == target
      ensures r.Ok? ==> r.value == target
    {
      if counter != target {
        return Crash("CHECK failed: *gProgressCounter == gTargetProgress");
      }
      return Ok(counter);
    }
  }
}
