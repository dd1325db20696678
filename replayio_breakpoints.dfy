/** Breakpoint bookkeeping (src/replayio/replayio-commands.cc): the
    line/column range filter over a script's instrumentation ops, the
    grouping of possible breakpoint columns by line, and the two first-wins
    maps from a source location to a function offset and back.
    Enumerating a script's instrumentation ops needs V8's compiler; the model
    receives its output, one `Op` per instrumentation site in visiting order,
    with the site's location already converted to a 1-based line and a
    column. */
module Breakpoints {
  import opened Wrappers
  import Decimal

  const MaxInt32: int := 0x7FFF_FFFF

  /** One instrumentation op: the site's kind, its 1-based line and column,
      the id of its function and the site's index within the function (the
      "bytecode offset" of the protocol). */
  datatype Op = Op(kind: string, line: int, column: int, functionId: string, bytecodeOffset: int)

  datatype Location = Location(line: int, column: int)

  const BreakpointKind := "breakpoint"

  /** The bounds used when the "begin" or "end" parameter is absent. */
  const DefaultBegin := Location(1, 0)
  const DefaultEnd := Location(MaxInt32, MaxInt32)

  /** `DecodeLocationProperty`: a missing location leaves the default. */
  function BoundOrDefault(given: Option<Location>, default: Location): Location {
    if given.Some? then given.value else default
  }

  // ---------------------------------------------------------------------
  // The range filter

  /** The test of `ForEachInstrumentationOpInRange`, as written: an op is
      skipped when it lies before `begin` or after `end`. */
  predicate InRange(begin: Location, end: Location, line: int, column: int)
    ensures InRange(begin, end, line, column) ==> begin.line <= line <= end.line
  {
    !(line < begin.line || (line == begin.line && column < begin.column)
      || line > end.line || (line == end.line && column > end.column))
  }

  /** Lexicographic order on (line, column). */
  predicate LexLessEq(a: Location, b: Location) {
    a.line < b.line || (a.line == b.line && a.column <= b.column)
  }

  /** The range test is the lexicographic interval `begin <= (line, column) <= end`. */
  lemma InRangeIsLexicographic(begin: Location, end: Location, line: int, column: int)
    ensures InRange(begin, end, line, column)
            <==> LexLessEq(begin, Location(line, column)) && LexLessEq(Location(line, column), end)
  {
  }

  /** With both bounds defaulted, every op with a positive line and an `int`
      column is in range. */
  lemma DefaultRangeKeepsEveryLine(line: int, column: int)
    requires 1 <= line <= MaxInt32 && 0 <= column <= MaxInt32
    ensures InRange(BoundOrDefault(None, DefaultBegin), BoundOrDefault(None, DefaultEnd), line, column)
  {
  }

  predicate Kept(op: Op, begin: Location, end: Location) {
    op.kind == BreakpointKind && InRange(begin, end, op.line, op.column)
  }

  /** The ops `ForEachInstrumentationOpInRange` passes on: the breakpoint
      sites within the range, in visiting order. */
  function OpsInRange(ops: seq<Op>, begin: Location, end: Location): (r: seq<Op>)
    ensures |r| <= |ops|
    ensures forall i :: 0 <= i < |r| ==> Kept(r[i], begin, end) && r[i] in ops
    ensures forall i :: 0 <= i < |ops| && Kept(ops[i], begin, end) ==> ops[i] in r
  {
    if ops == [] then []
    else
      var rest := OpsInRange(ops[..|ops| - 1], begin, end);
      var last := ops[|ops| - 1];
      assert forall i :: 0 <= i < |ops| - 1 ==> ops[i] == ops[..|ops| - 1][i];
      if Kept(last, begin, end) then rest + [last] else rest
  }

  /** The filter keeps the relative order of the ops it keeps. */
  lemma {:induction false} OpsInRangeOfAppend(ops: seq<Op>, op: Op, begin: Location, end: Location)
    ensures OpsInRange(ops + [op], begin, end)
            == OpsInRange(ops, begin, end) + (if Kept(op, begin, end) then [op] else [])
  {
    assert (ops + [op])[..|ops|] == ops;
  }

  // ---------------------------------------------------------------------
  // Possible breakpoints, grouped by line

  /** One entry of "lineLocations". */
  datatype LineLocations = LineLocations(line: nat, columns: seq<int>)

  /** The columns of the ops on `line`, in visiting order. */
  function ColumnsOn(ops: seq<Op>, line: int): seq<int> {
    ColumnsBefore(ops, |ops|, line)
  }

  /** The columns of the first `k` ops on `line`. */
  function ColumnsBefore(ops: seq<Op>, k: nat, line: int): seq<int>
    requires k <= |ops|
  {
    if k == 0 then []
    else ColumnsBefore(ops, k - 1, line) + (if ops[k - 1].line == line then [ops[k - 1].column] else [])
  }

  /** One more than the largest line of any op (0 for no ops): the size
      `lineColumns` grows to. */
  function LineBound(ops: seq<Op>): (n: nat)
    ensures forall i :: 0 <= i < |ops| ==> ops[i].line < n
  {
    if ops == [] then 0
    else
      var n := LineBound(ops[..|ops| - 1]);
      var last := ops[|ops| - 1].line + 1;
      assert forall i :: 0 <= i < |ops| - 1 ==> ops[i] == ops[..|ops| - 1][i];
      if last > n then last else n
  }

  /** The lines below `n` that have columns, ascending, each with its columns. */
  function Grouped(ops: seq<Op>, n: nat): seq<LineLocations> {
    if n == 0 then []
    else Grouped(ops, n - 1)
         + (if ColumnsOn(ops, n - 1) != [] then [LineLocations(n - 1, ColumnsOn(ops, n - 1))] else [])
  }

  /** The number of non-empty column lists. */
  function CountNonEmpty(lineColumns: seq<seq<int>>): nat {
    if lineColumns == [] then 0
    else CountNonEmpty(lineColumns[..|lineColumns| - 1]) + (if lineColumns[|lineColumns| - 1] != [] then 1 else 0)
  }

  /** `RecordReplayGetPossibleBreakpoints` over the ops of a script:
      `lineColumns` is grown until it has a slot for each op's line and
      collects the columns, `numLines` counts the lines that got a first
      column, and the lines with columns are then listed in ascending order.
      Lines are never negative: they come from position info plus one. */
  method GetPossibleBreakpoints(ops: seq<Op>, begin: Location, end: Location)
    returns (numLines: nat, lineLocations: seq<LineLocations>)
    requires forall i :: 0 <= i < |ops| ==> ops[i].line >= 0
    ensures var kept := OpsInRange(ops, begin, end);
            lineLocations == Grouped(kept, LineBound(kept))
    ensures numLines == |lineLocations|
  {
    var kept := OpsInRange(ops, begin, end);
    var lineColumns: seq<seq<int>> := [];
    numLines := 0;
    assert forall j :: 0 <= j < |kept| ==> kept[j].line >= 0;
    var i := 0;
    while i < |kept|
      invariant 0 <= i <= |kept|
      invariant |lineColumns| == LineBound(kept[..i])
      invariant forall l :: 0 <= l < |lineColumns| ==> lineColumns[l] == ColumnsOn(kept[..i], l)
      invariant numLines == CountNonEmpty(lineColumns)
    {
      lineColumns, numLines := CollectColumn(kept, i, lineColumns, numLines);
      i := i + 1;
    }
    assert kept[..i] == kept;
    GroupedCount(kept, lineColumns);
    lineLocations := ListLines(kept, lineColumns);
  }

  /** One op of the range callback: grow `lineColumns` up to the op's line,
      count the line if it gets its first column, and append the column. */
  method CollectColumn(ops: seq<Op>, i: nat, lineColumns: seq<seq<int>>, numLines: nat)
    returns (after: seq<seq<int>>, count: nat)
    requires i < |ops| && ops[i].line >= 0
    requires |lineColumns| == LineBound(ops[..i])
    requires forall l :: 0 <= l < |lineColumns| ==> lineColumns[l] == ColumnsOn(ops[..i], l)
    requires numLines == CountNonEmpty(lineColumns)
    ensures |after| == LineBound(ops[..i + 1])
    ensures forall l :: 0 <= l < |after| ==> after[l] == ColumnsOn(ops[..i + 1], l)
    ensures count == CountNonEmpty(after)
  {
    var before, op := ops[..i], ops[i];
    assert ops[..i + 1] == before + [op];
    var line := op.line;
    var size := if line + 1 > |lineColumns| then line + 1 else |lineColumns|;
    after, count := lineColumns, numLines;
    while line >= |after|
      invariant LineBound(before) <= |after| <= size
      invariant forall l :: 0 <= l < |after| ==> after[l] == ColumnsOn(before, l)
      invariant count == CountNonEmpty(after)
    {
      AddEmptyLine(before, after);
      after := after + [[]];
    }
    if after[line] == [] {
      count := count + 1;
    }
    CountNonEmptyUpdate(after, line, after[line] + [op.column]);
    AddColumn(before, op, after);
    after := after[line := after[line] + [op.column]];
  }

  /** The second loop: the lines with columns, in ascending order. */
  method ListLines(kept: seq<Op>, lineColumns: seq<seq<int>>) returns (lineLocations: seq<LineLocations>)
    requires forall l :: 0 <= l < |lineColumns| ==> lineColumns[l] == ColumnsOn(kept, l)
    ensures lineLocations == Grouped(kept, |lineColumns|)
  {
    lineLocations := [];
    var line := 0;
    while line < |lineColumns|
      invariant 0 <= line <= |lineColumns|
      invariant lineLocations == Grouped(kept, line)
    {
      if lineColumns[line] != [] {
        lineLocations := lineLocations + [LineLocations(line, lineColumns[line])];
      }
      line := line + 1;
    }
  }

  /** A new slot past the bound is empty, as are its line's columns. */
  lemma AddEmptyLine(ops: seq<Op>, lineColumns: seq<seq<int>>)
    requires LineBound(ops) <= |lineColumns|
    requires forall l :: 0 <= l < |lineColumns| ==> lineColumns[l] == ColumnsOn(ops, l)
    ensures forall l :: 0 <= l <= |lineColumns| ==> (lineColumns + [[]])[l] == ColumnsOn(ops, l)
    ensures CountNonEmpty(lineColumns + [[]]) == CountNonEmpty(lineColumns)
  {
    ColumnsBeyondBound(ops, |lineColumns|);
    assert (lineColumns + [[]])[..|lineColumns|] == lineColumns;
  }

  /** Adding one op's column to its line's slot keeps every slot equal to
      its line's columns. */
  lemma AddColumn(before: seq<Op>, op: Op, lineColumns: seq<seq<int>>)
    requires 0 <= op.line < |lineColumns|
    requires |lineColumns| == if op.line + 1 > LineBound(before) then op.line + 1 else LineBound(before)
    requires forall l :: 0 <= l < |lineColumns| ==> lineColumns[l] == ColumnsOn(before, l)
    ensures var after := lineColumns[op.line := lineColumns[op.line] + [op.column]];
            && |after| == LineBound(before + [op])
            && forall l :: 0 <= l < |after| ==> after[l] == ColumnsOn(before + [op], l)
  {
    assert (before + [op])[..|before|] == before;
    forall l | 0 <= l < |lineColumns|
      ensures ColumnsOn(before + [op], l) == ColumnsOn(before, l) + (if op.line == l then [op.column] else [])
    {
      ColumnsBeforeOfAppend(before, op, |before|, l);
    }
  }

  /** Appending an op leaves the columns of the ops before it alone. */
  lemma {:induction false} ColumnsBeforeOfAppend(ops: seq<Op>, op: Op, k: nat, line: int)
    requires k <= |ops|
    ensures ColumnsBefore(ops + [op], k, line) == ColumnsBefore(ops, k, line)
  {
    if k > 0 {
      ColumnsBeforeOfAppend(ops, op, k - 1, line);
      assert (ops + [op])[k - 1] == ops[k - 1];
    }
  }

  lemma ColumnsBeyondBound(ops: seq<Op>, line: int)
    requires line >= LineBound(ops)
    ensures ColumnsOn(ops, line) == []
  {
    ColumnsOnNonEmpty(ops, line);
  }

  lemma {:induction false} CountNonEmptyUpdate(s: seq<seq<int>>, k: nat, x: seq<int>)
    requires k < |s| && x != []
    ensures CountNonEmpty(s[k := x]) == CountNonEmpty(s) + (if s[k] == [] then 1 else 0)
  {
    var t := s[k := x];
    if k < |s| - 1 {
      assert t[..|t| - 1] == s[..|s| - 1][k := x];
      CountNonEmptyUpdate(s[..|s| - 1], k, x);
    } else {
      assert t[..|t| - 1] == s[..|s| - 1];
    }
  }

  /** When each slot holds its line's columns, the slots with columns are
      exactly the grouped lines. */
  lemma {:induction false} GroupedCount(ops: seq<Op>, lineColumns: seq<seq<int>>)
    requires forall l :: 0 <= l < |lineColumns| ==> lineColumns[l] == ColumnsOn(ops, l)
    ensures |Grouped(ops, |lineColumns|)| == CountNonEmpty(lineColumns)
  {
    if lineColumns != [] {
      GroupedCount(ops, lineColumns[..|lineColumns| - 1]);
    }
  }

  /** The grouped lines are strictly ascending and below the bound. */
  lemma {:induction false} GroupedAscending(ops: seq<Op>, n: nat)
    ensures forall i :: 0 <= i < |Grouped(ops, n)| ==> Grouped(ops, n)[i].line < n
    ensures forall i, j :: 0 <= i < j < |Grouped(ops, n)| ==> Grouped(ops, n)[i].line < Grouped(ops, n)[j].line
  {
    if n > 0 {
      GroupedAscending(ops, n - 1);
    }
  }

  /** Each grouped line carries all the columns of that line, in visiting
      order, and never none. */
  lemma {:induction false} GroupedColumns(ops: seq<Op>, n: nat)
    ensures forall i :: 0 <= i < |Grouped(ops, n)| ==>
              Grouped(ops, n)[i].columns == ColumnsOn(ops, Grouped(ops, n)[i].line) != []
  {
    if n > 0 {
      GroupedColumns(ops, n - 1);
    }
  }

  /** Every line holding an op below the bound is listed (with its columns,
      by `GroupedColumns`). */
  lemma {:induction false} GroupedComplete(ops: seq<Op>, n: nat, line: nat)
    requires line < n && exists k :: 0 <= k < |ops| && ops[k].line == line
    ensures exists i :: 0 <= i < |Grouped(ops, n)| && Grouped(ops, n)[i].line == line
  {
    GroupedStep(ops, n);
    if line < n - 1 {
      GroupedComplete(ops, n - 1, line);
    } else {
      ColumnsOnNonEmpty(ops, line);
    }
  }

  /** Raising the bound by one keeps the listing below it and adds at most
      the new line. */
  lemma GroupedStep(ops: seq<Op>, n: nat)
    requires n > 0
    ensures Grouped(ops, n - 1) <= Grouped(ops, n)
    ensures ColumnsOn(ops, n - 1) != [] ==> Grouped(ops, n)[|Grouped(ops, n - 1)|].line == n - 1
  {
  }

  /** A line has columns exactly when some op lies on it. */
  lemma ColumnsOnNonEmpty(ops: seq<Op>, line: int)
    ensures ColumnsOn(ops, line) != [] <==> exists i :: 0 <= i < |ops| && ops[i].line == line
  {
    ColumnsBeforeNonEmpty(ops, |ops|, line);
  }

  lemma {:induction false} ColumnsBeforeNonEmpty(ops: seq<Op>, k: nat, line: int)
    requires k <= |ops|
    ensures ColumnsBefore(ops, k, line) != [] <==> exists i :: 0 <= i < k && ops[i].line == line
  {
    if k > 0 {
      ColumnsBeforeNonEmpty(ops, k - 1, line);
    }
  }

  // ---------------------------------------------------------------------
  // Breakpoint keys

  /** `BreakpointKey`: `"<scriptId>:<line>:<column>"`. */
  function BreakpointKey(scriptId: int, line: int, column: int): (r: string)
    ensures Decimal.Atoi(r) == scriptId
  {
    Decimal.AtoiBeforeColon(scriptId, Decimal.IntToString(line) + ":" + Decimal.IntToString(column));
    Decimal.IntToString(scriptId) + ":" + (Decimal.IntToString(line) + ":" + Decimal.IntToString(column))
  }

  /** `BreakpointPositionKey`: `"<functionId>:<offset>"`. */
  function PositionKey(functionId: string, bytecodeOffset: int): (r: string)
    ensures Decimal.LastIndexOf(r, ':') == Some(|functionId|)
    ensures Decimal.Atoi(r[|functionId| + 1..]) == bytecodeOffset
  {
    var offset := Decimal.IntToString(bytecodeOffset);
    Decimal.ColonJoin(functionId, offset);
    Decimal.IntToStringHasNo(bytecodeOffset, ':');
    Decimal.LastIndexIs(functionId + ":" + offset, ':', |functionId|);
    Decimal.AtoiOfIntToString(bytecodeOffset, []);
    assert offset + [] == offset;
    functionId + ":" + offset
  }

  /** Distinct source locations have distinct keys. */
  lemma BreakpointKeyInjective(s1: int, l1: int, c1: int, s2: int, l2: int, c2: int)
    requires BreakpointKey(s1, l1, c1) == BreakpointKey(s2, l2, c2)
    ensures s1 == s2 && l1 == l2 && c1 == c2
  {
    var rest1 := Decimal.IntToString(l1) + ":" + Decimal.IntToString(c1);
    var rest2 := Decimal.IntToString(l2) + ":" + Decimal.IntToString(c2);
    Decimal.SplitAfterInt(s1, rest1, s2, rest2);
    Decimal.SplitBeforeInt(Decimal.IntToString(l1), c1, Decimal.IntToString(l2), c2);
    Decimal.IntToStringInjective(l1, l2);
  }

  /** Distinct function offsets have distinct keys, even though function ids
      contain ':' themselves. */
  lemma PositionKeyInjective(f1: string, o1: int, f2: string, o2: int)
    requires PositionKey(f1, o1) == PositionKey(f2, o2)
    ensures f1 == f2 && o1 == o2
  {
    Decimal.SplitBeforeInt(f1, o1, f2, o2);
  }

  // ---------------------------------------------------------------------
  // First-wins maps

  /** `unordered_map::insert` of each entry in turn: an entry whose key is
      already present is dropped. */
  function InsertAll<V>(m: map<string, V>, entries: seq<(string, V)>): map<string, V>
    decreases |entries|
  {
    if entries == [] then m
    else InsertAll(if entries[0].0 in m then m else m[entries[0].0 := entries[0].1], entries[1..])
  }

  /** A key already present keeps its value. */
  lemma {:induction false} InsertAllKeepsExisting<V>(m: map<string, V>, entries: seq<(string, V)>, k: string)
    requires k in m
    ensures k in InsertAll(m, entries) && InsertAll(m, entries)[k] == m[k]
    decreases |entries|
  {
    if entries != [] {
      var m' := if entries[0].0 in m then m else m[entries[0].0 := entries[0].1];
      InsertAllKeepsExisting(m', entries[1..], k);
    }
  }

  /** A new key gets the value of its first entry. */
  lemma {:induction false} InsertAllFirstWins<V>(m: map<string, V>, entries: seq<(string, V)>, i: nat)
    requires i < |entries| && entries[i].0 !in m
    requires forall j :: 0 <= j < i ==> entries[j].0 != entries[i].0
    ensures entries[i].0 in InsertAll(m, entries)
    ensures InsertAll(m, entries)[entries[i].0] == entries[i].1
    decreases |entries|
  {
    var m' := if entries[0].0 in m then m else m[entries[0].0 := entries[0].1];
    if i == 0 {
      InsertAllKeepsExisting(m', entries[1..], entries[0].0);
    } else {
      InsertAllFirstWins(m', entries[1..], i - 1);
    }
  }

  /** The keys afterwards are the old keys and the entries' keys. */
  lemma {:induction false} InsertAllKeys<V>(m: map<string, V>, entries: seq<(string, V)>, k: string)
    ensures k in InsertAll(m, entries) <==> k in m || exists i :: 0 <= i < |entries| && entries[i].0 == k
    decreases |entries|
  {
    if entries != [] {
      var m' := if entries[0].0 in m then m else m[entries[0].0 := entries[0].1];
      InsertAllKeys(m', entries[1..], k);
      if exists i :: 0 <= i < |entries[1..]| && entries[1..][i].0 == k {
        var i :| 0 <= i < |entries[1..]| && entries[1..][i].0 == k;
        assert entries[i + 1].0 == k;
      }
      if exists i :: 0 <= i < |entries| && entries[i].0 == k {
        var i :| 0 <= i < |entries| && entries[i].0 == k;
        if i > 0 {
          assert entries[1..][i - 1].0 == k;
        }
      }
    }
  }

  /** Inserting the same entries again changes nothing. */
  lemma {:induction false} InsertAllIdempotent<V>(m: map<string, V>, entries: seq<(string, V)>)
    ensures InsertAll(InsertAll(m, entries), entries) == InsertAll(m, entries)
  {
    var r := InsertAll(m, entries);
    forall k | k in r
      ensures k in InsertAll(r, entries) && InsertAll(r, entries)[k] == r[k]
    {
      InsertAllKeepsExisting(r, entries, k);
    }
    forall k | k in InsertAll(r, entries)
      ensures k in r
    {
      InsertAllKeys(r, entries, k);
      InsertAllKeys(m, entries, k);
    }
  }

  /** Inserting from index `i` on is inserting entry `i`, then the rest. */
  lemma InsertAllStep<V>(m: map<string, V>, entries: seq<(string, V)>, i: nat)
    requires i < |entries|
    ensures InsertAll(m, entries[i..])
            == InsertAll(if entries[i].0 in m then m else m[entries[i].0 := entries[i].1], entries[i + 1..])
  {
    assert entries[i..][1..] == entries[i + 1..];
  }

  /** One `insert`, of entry `i`: it goes in unless its key is present. */
  method InsertEntry<V>(m: map<string, V>, entries: seq<(string, V)>, i: nat) returns (r: map<string, V>)
    requires i < |entries|
    ensures InsertAll(r, entries[i + 1..]) == InsertAll(m, entries[i..])
  {
    InsertAllStep(m, entries, i);
    var (key, value) := entries[i];
    if key in m {
      r := m;
    } else {
      r := m[key := value];
    }
  }

  datatype BreakpointInfo = BreakpointInfo(functionId: string, bytecodeOffset: int)

  /** What `GenerateBreakpointInfo` offers `gBreakpoints`, op by op (of every
      kind). */
  function BreakpointEntries(scriptId: int, ops: seq<Op>): (e: seq<(string, BreakpointInfo)>)
    ensures |e| == |ops|
  {
    seq(|ops|, i requires 0 <= i < |ops| =>
      (BreakpointKey(scriptId, ops[i].line, ops[i].column), BreakpointInfo(ops[i].functionId, ops[i].bytecodeOffset)))
  }

  /** What `GenerateBreakpointInfo` offers `gBreakpointPositions`. */
  function PositionEntries(ops: seq<Op>): (e: seq<(string, Location)>)
    ensures |e| == |ops|
  {
    seq(|ops|, i requires 0 <= i < |ops| =>
      (PositionKey(ops[i].functionId, ops[i].bytecodeOffset), Location(ops[i].line, ops[i].column)))
  }

  /** `gBreakpoints` (null until first generated) and `gBreakpointPositions`. */
  class BreakpointTables {
    var breakpoints: Option<map<string, BreakpointInfo>>
    var positions: map<string, Location>

    constructor()
      ensures breakpoints == None && positions == map[]
    {
      breakpoints := None;
      positions := map[];
    }

    function Breakpoints(): map<string, BreakpointInfo>
      reads this
    {
      if breakpoints.Some? then breakpoints.value else map[]
    }

    /** `GenerateBreakpointInfo` for the script `scriptId` whose ops are `ops`. */
    method Generate(scriptId: int, ops: seq<Op>)
      modifies this
      ensures breakpoints == Some(InsertAll(old(Breakpoints()), BreakpointEntries(scriptId, ops)))
      ensures positions == InsertAll(old(positions), PositionEntries(ops))
    {
      var entries := BreakpointEntries(scriptId, ops);
      var positionEntries := PositionEntries(ops);
      var m := Breakpoints();
      var p := positions;
      var i := 0;
      while i < |ops|
        invariant 0 <= i <= |ops|
        invariant InsertAll(m, entries[i..]) == InsertAll(old(Breakpoints()), entries)
        invariant InsertAll(p, positionEntries[i..]) == InsertAll(old(positions), positionEntries)
      {
        m := InsertEntry(m, entries, i);
        p := InsertEntry(p, positionEntries, i);
        i := i + 1;
      }
      breakpoints := Some(m);
      positions := p;
    }

    /** `RecordReplayConvertLocationToFunctionOffset` for a location in the
        script `sourceId` whose ops are `ops`: the tables are generated when
        they do not exist yet or lack the location, and the location's
        function offset is returned when there is one (`None` stands for the
        empty object). Generating needs the script itself, and `GetScript`
        crashes when `scriptKnown` is false (no script has that id). */
    method ConvertLocation(sourceId: int, line: int, column: int, ops: seq<Op>, scriptKnown: bool)
      returns (r: Result<Option<BreakpointInfo>>)
      modifies this
      ensures var key := BreakpointKey(sourceId, line, column);
              var hit := old(breakpoints).Some? && key in old(breakpoints).value;
              var table := if hit then old(breakpoints).value
                           else InsertAll(old(Breakpoints()), BreakpointEntries(sourceId, ops));
              && (r.Crash? <==> !hit && !scriptKnown)
              && (r.Ok? ==> breakpoints == Some(table)
                            && (r.value.Some? <==> key in table)
                            && (r.value.Some? ==> r.value.value == table[key])
                            && positions == (if hit then old(positions)
                                             else InsertAll(old(positions), PositionEntries(ops))))
              && (r.Crash? ==> breakpoints == old(breakpoints) && positions == old(positions))
    {
      var key := BreakpointKey(sourceId, line, column);
      if breakpoints.None? {
        if !scriptKnown {
          return Crash("GetScript unknown script");
        }
        Generate(sourceId, ops);
      }
      if key !in breakpoints.value {
        if !scriptKnown {
          return Crash("GetScript unknown script");
        }
        Generate(sourceId, ops);
        InsertAllIdempotent(old(Breakpoints()), BreakpointEntries(sourceId, ops));
        InsertAllIdempotent(old(positions), PositionEntries(ops));
        if key !in breakpoints.value {
          return Ok(None);
        }
      }
      r := Ok(Some(breakpoints.value[key]));
    }
  }

  /** Converting a location where an op of the script lies finds the first
      such op's function offset, unless the table already held the key. */
  lemma ConvertFindsFirstOp(table0: map<string, BreakpointInfo>, sourceId: int, ops: seq<Op>, i: nat)
    requires i < |ops|
    requires BreakpointKey(sourceId, ops[i].line, ops[i].column) !in table0
    requires forall j :: 0 <= j < i ==> (ops[j].line, ops[j].column) != (ops[i].line, ops[i].column)
    ensures var key := BreakpointKey(sourceId, ops[i].line, ops[i].column);
            var table := InsertAll(table0, BreakpointEntries(sourceId, ops));
            key in table && table[key] == BreakpointInfo(ops[i].functionId, ops[i].bytecodeOffset)
  {
    var entries := BreakpointEntries(sourceId, ops);
    forall j | 0 <= j < i
      ensures entries[j].0 != entries[i].0
    {
      if entries[j].0 == entries[i].0 {
        BreakpointKeyInjective(sourceId, ops[j].line, ops[j].column, sourceId, ops[i].line, ops[i].column);
      }
    }
    InsertAllFirstWins(table0, entries, i);
  }
}
