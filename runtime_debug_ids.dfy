/** Textual function ids (src/runtime/runtime-debug.cc): a function is named
    by `"<scriptId>:<startPosition>"`, which `ParseRecordReplayFunctionId`
    reads back with `atoi`. */
module FunctionIds {
  import opened Wrappers
  import Decimal

  /** `GetRecordReplayFunctionId` (the optional location dump to the log is
      left out). */
  function FunctionId(scriptId: int, startPosition: int): string {
    Decimal.IntToString(scriptId) + ":" + Decimal.IntToString(startPosition)
  }

  /** `ParseRecordReplayFunctionId`: the script id is `atoi` of the whole
      text and the position `atoi` of the text after the first ':'. Without
      a ':' the C++ reads through a null pointer, a crash here. */
  function ParseFunctionId(id: string): (r: Result<(int, int)>)
    ensures r.Crash? <==> ':' !in id
    ensures r.Ok? ==> r.value.0 == Decimal.Atoi(id)
  {
    var colon := Decimal.IndexOf(id, ':');
    if colon.None? then Crash("strchr returned null")
    else Ok((Decimal.Atoi(id), Decimal.Atoi(id[colon.value + 1..])))
  }

  /** Parsing a formatted function id gives back both numbers. */
  lemma ParseOfFunctionId(scriptId: int, startPosition: int)
    ensures ParseFunctionId(FunctionId(scriptId, startPosition)) == Ok((scriptId, startPosition))
  {
    var head := Decimal.IntToString(scriptId);
    var tail := Decimal.IntToString(startPosition);
    var id := FunctionId(scriptId, startPosition);
    assert id == head + ([':'] + tail);
    Decimal.IntToStringHasNo(scriptId, ':');
    assert id[|head|] == ':' && id[..|head|] == head;
    Decimal.FirstIndexIs(id, ':', |head|);
    assert id[|head| + 1..] == tail;
    Decimal.AtoiOfIntToString(scriptId, [':'] + tail);
    Decimal.AtoiOfIntToString(startPosition, []);
    assert tail + [] == tail;
  }

  /** Distinct functions get distinct ids. */
  lemma FunctionIdInjective(a: int, b: int, c: int, d: int)
    requires FunctionId(a, b) == FunctionId(c, d)
    ensures a == c && b == d
  {
    ParseOfFunctionId(a, b);
    ParseOfFunctionId(c, d);
  }
}

/** `ScriptLinePosition` and `ScriptLinePositionWithOffset`
    (src/runtime/runtime-debug.cc): the source position where a line starts.
    A script is given by its `line_ends` array (the position of each line's
    terminating newline) and whether it is WebAssembly; the position-info
    lookup `Script::GetPositionInfo` is passed in as its result, the line of
    the offset, or `None` when it fails. */
module LinePositions {
  import opened Wrappers

  /** `ScriptLinePosition`. */
  function ScriptLinePosition(lineEnds: seq<int>, isWasm: bool, line: int): (r: int)
    ensures line < 0 ==> r == -1
    ensures line >= 0 && isWasm ==> r == 0
  {
    if line < 0 then -1
    else if isWasm then 0
    else if line == 0 then 0
    else if line > |lineEnds| then -1
    else lineEnds[line - 1] + 1
  }

  /** `ScriptLinePositionWithOffset`; `offsetLine` is the line of `offset`
      reported by `Script::GetPositionInfo`. */
  function ScriptLinePositionWithOffset(lineEnds: seq<int>, isWasm: bool, line: int, offset: int,
                                        offsetLine: Option<int>): (r: int)
    ensures line < 0 || offset < 0 ==> r == -1
    ensures line >= 0 && offset >= 0 && (line == 0 || offset == 0) ==>
              r == ScriptLinePosition(lineEnds, isWasm, line) + offset
    ensures line > 0 && offset > 0 ==>
              r == if offsetLine.None? then -1
                   else ScriptLinePosition(lineEnds, isWasm, offsetLine.value + line)
  {
    if line < 0 || offset < 0 then -1
    else if line == 0 || offset == 0 then ScriptLinePosition(lineEnds, isWasm, line) + offset
    else if offsetLine.None? then -1
    else ScriptLinePosition(lineEnds, isWasm, offsetLine.value + line)
  }

  /** Line ends as V8 records them: non-negative and strictly increasing. */
  predicate LineEndsWellFormed(lineEnds: seq<int>) {
    && (forall i :: 0 <= i < |lineEnds| ==> lineEnds[i] >= 0)
    && (forall i, j :: 0 <= i < j < |lineEnds| ==> lineEnds[i] < lineEnds[j])
  }

  /** The 0-based line holding `position`: the number of newlines before it. */
  function LineOf(lineEnds: seq<int>, position: int): (n: nat)
    ensures n <= |lineEnds|
  {
    if lineEnds == [] then 0
    else LineOf(lineEnds[..|lineEnds| - 1], position) + (if lineEnds[|lineEnds| - 1] < position then 1 else 0)
  }

  /** In a JavaScript script, every line up to the line count starts at a
      position that lies on that very line. */
  lemma {:induction false} LineStartIsOnLine(lineEnds: seq<int>, line: int)
    requires LineEndsWellFormed(lineEnds)
    requires 0 <= line <= |lineEnds|
    ensures ScriptLinePosition(lineEnds, false, line) >= 0
    ensures LineOf(lineEnds, ScriptLinePosition(lineEnds, false, line)) == line
  {
    var p := ScriptLinePosition(lineEnds, false, line);
    CountBelow(lineEnds, p, line);
  }

  /** The position before a line's start lies on the previous line, so the
      start is the first position of its line. */
  lemma {:induction false} LineStartIsFirst(lineEnds: seq<int>, line: int)
    requires LineEndsWellFormed(lineEnds)
    requires 0 < line <= |lineEnds|
    ensures LineOf(lineEnds, ScriptLinePosition(lineEnds, false, line) - 1) == line - 1
  {
    CountBelow(lineEnds, ScriptLinePosition(lineEnds, false, line) - 1, line - 1);
  }

  /** With strictly increasing ends, `LineOf(p)` is `k` exactly when the
      first `k` ends are below `p` and the rest are not. */
  lemma {:induction false} CountBelow(lineEnds: seq<int>, p: int, k: nat)
    requires LineEndsWellFormed(lineEnds)
    requires k <= |lineEnds|
    requires forall i :: 0 <= i < k ==> lineEnds[i] < p
    requires forall i :: k <= i < |lineEnds| ==> lineEnds[i] >= p
    ensures LineOf(lineEnds, p) == k
    decreases |lineEnds|
  {
    if lineEnds != [] {
      var init := lineEnds[..|lineEnds| - 1];
      if k == |lineEnds| {
        CountBelow(init, p, k - 1);
      } else {
        CountBelow(init, p, k);
      }
    }
  }

  /** Line starts come in increasing order. */
  lemma LineStartsIncrease(lineEnds: seq<int>, a: int, b: int)
    requires LineEndsWellFormed(lineEnds)
    requires 0 <= a < b <= |lineEnds|
    ensures ScriptLinePosition(lineEnds, false, a) < ScriptLinePosition(lineEnds, false, b)
  {
  }

  /** Past the last line there is no line start. */
  lemma NoLineBeyondCount(lineEnds: seq<int>, isWasm: bool, line: int)
    requires !isWasm && line > |lineEnds|
    ensures ScriptLinePosition(lineEnds, isWasm, line) == -1
  {
  }
}
