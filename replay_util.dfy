/** Location strings for diagnostics (src/replay/replay-util.cc and
    src/replay/replay-util.h).
    Looking up a script by id, reading its name and converting a source
    position to a line and column are V8 operations; the model receives
    their results: the script's name (None when it is not a string) and the
    position's 0-based line and column. */
module LocationStrings {
  import opened Wrappers
  import Decimal

  /** What `Script::GetPositionInfo` reports: a 0-based line and a column. */
  datatype PositionInfo = PositionInfo(line: int, column: int)

  /** What a diagnostic needs of one script at one source position. */
  datatype ScriptPosition = ScriptPosition(name: Option<string>, info: PositionInfo)

  const AnonymousScript := "(anonymous script)"
  const NoScript := "(no script)"

  /** `GetScriptName`: the script's name when it is a string. */
  function ScriptName(name: Option<string>): (r: string)
    ensures name.Some? ==> r == name.value
    ensures name.None? ==> r == AnonymousScript
  {
    if name.Some? then name.value else AnonymousScript
  }

  /** `"<id>:<name>:<line + 1>:<column>"`, the line made 1-based. */
  function LocationText(scriptId: int, name: string, info: PositionInfo): string {
    Decimal.IntToString(scriptId) + LocationTail(name, info)
  }

  /** What follows the id: `":<name>:<line + 1>:<column>"`. */
  function LocationTail(name: string, info: PositionInfo): string {
    ":" + name + ":" + Decimal.IntToString(info.line + 1) + ":" + Decimal.IntToString(info.column)
  }

  /** `recordreplay::GetScriptLocationString`. */
  function ScriptLocationString(scriptId: int, at: ScriptPosition): (r: string)
    ensures r == NoScript <==> ScriptName(at.name) == ""
    ensures ScriptName(at.name) != "" ==>
              r == LocationText(scriptId, ScriptName(at.name), at.info)
  {
    var name := ScriptName(at.name);
    if name == "" then NoScript
    else
      var r := LocationText(scriptId, name, at.info);
      assert r[..|Decimal.IntToString(scriptId)|] == Decimal.IntToString(scriptId);
      NoScriptIsNoLocation(scriptId, name, at.info);
      r
  }

  /** "(no script)" is never a formatted location: a formatted location starts
      with a number. */
  lemma NoScriptIsNoLocation(scriptId: int, name: string, info: PositionInfo)
    ensures LocationText(scriptId, name, info) != NoScript
  {
    var r := LocationText(scriptId, name, info);
    var id := Decimal.IntToString(scriptId);
    assert r[0] == id[0];
    assert NoScript[0] == '(';
  }

  /** `recordreplay::GetCurrentLocationStringExtended`. `counter` is the value
      of the progress counter and `stack` the text `PrintCurrentStackTrace`
      writes; `at` describes the script only when `scriptId > 0`. */
  function CurrentLocationStringExtended(counter: nat, scriptId: int, at: ScriptPosition,
                                         stack: string): (r: string)
    ensures "PC=" <= r && Decimal.Atoi(r[3..]) == counter
  {
    var mid := if scriptId > 0
               then " scriptId=" + Decimal.IntToString(scriptId) + " @" + ScriptLocationString(scriptId, at)
               else "";
    CounterReadsBack(counter, mid, " stack=" + stack);
    "PC=" + Decimal.NatToString(counter) + mid + (" stack=" + stack)
  }

  /** `atoi` reads the counter back from just after "PC=", whatever segments
      starting with a space follow. */
  lemma CounterReadsBack(counter: nat, mid: string, tail: string)
    requires mid == [] || mid[0] == ' '
    requires tail != [] && tail[0] == ' '
    ensures var r := "PC=" + Decimal.NatToString(counter) + mid + tail;
            "PC=" <= r && Decimal.Atoi(r[3..]) == counter
  {
    var digits := Decimal.NatToString(counter);
    var rest := mid + tail;
    assert rest[0] == ' ' by {
      if mid == [] { assert rest == tail; } else { assert rest[0] == mid[0]; }
    }
    var r := "PC=" + digits + mid + tail;
    assert r == "PC=" + (digits + rest);
    assert r[3..] == digits + rest;
    Decimal.AtoiOfNatToString(counter, rest);
  }

  /** The extended string always starts with the progress counter and ends
      with the stack, and holds the script segment exactly when the id is
      positive. */
  lemma CurrentLocationStringShape(counter: nat, scriptId: int, at: ScriptPosition, stack: string)
    ensures var r := CurrentLocationStringExtended(counter, scriptId, at, stack);
            var pc := "PC=" + Decimal.NatToString(counter);
            && r[..|pc|] == pc
            && r[|r| - |" stack=" + stack|..] == " stack=" + stack
            && (scriptId <= 0 <==> r == pc + " stack=" + stack)
  {
    var pc := "PC=" + Decimal.NatToString(counter);
    var mid := if scriptId > 0
               then " scriptId=" + Decimal.IntToString(scriptId) + " @" + ScriptLocationString(scriptId, at)
               else "";
    var tail := " stack=" + stack;
    assert CurrentLocationStringExtended(counter, scriptId, at, stack) == pc + mid + tail;
    ThreeParts(pc, mid, tail);
    assert scriptId > 0 ==> |mid| > 0;
  }

  /** A string made of three parts starts with the first and ends with the
      last, and is the first and last alone exactly when the middle is empty. */
  lemma ThreeParts(a: string, b: string, c: string)
    ensures (a + b + c)[..|a|] == a
    ensures (a + b + c)[|a + b|..] == c && |a + b + c| - |c| == |a + b|
    ensures a + b + c == a + c <==> b == []
  {
    if a + b + c == a + c {
      assert |b| == 0;
    }
    if b == [] {
      assert a + b == a;
    }
  }

  /** The script id can be read back from a formatted location: `atoi` stops
      at the first ':'. */
  lemma ScriptIdOfLocation(scriptId: int, at: ScriptPosition)
    requires ScriptName(at.name) != ""
    ensures Decimal.Atoi(ScriptLocationString(scriptId, at)) == scriptId
  {
    var rest := LocationTail(ScriptName(at.name), at.info);
    assert rest[0] == ':';
    Decimal.AtoiOfIntToString(scriptId, rest);
  }
}
