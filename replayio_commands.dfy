/** `CommandCallback` (src/replayio/replayio-api.cc, with a second copy in
    src/replayio/replayio-commands.cc): how a protocol command sent by the
    recorder while paused is answered. Commands named in a fixed table are
    handled in C++; all others go to the JavaScript command handler. A
    handler that runs instrumented user code by accident advances the
    execution progress counter, and the callback then puts it back.
    JSON parsing and printing and the handlers themselves are not modelled:
    whether the params parse, what each handler answers (`None` for an
    empty handle) and the counter value after the handler ran are inputs. */
module Commands {
  import opened Wrappers

  /** `gInternalCommandCallbacks`, in table order. */
  const InternalCommands: seq<string> := [
    "Debugger.getSourceContents",
    "Debugger.getPossibleBreakpoints",
    "Target.convertLocationToFunctionOffset",
    "Target.convertFunctionOffsetToLocation",
    "Target.countStackFrames",
    "Target.getFunctionsInRange",
    "Target.getHTMLSource",
    "Target.currentGeneratorId"
  ]

  /** No two table entries share a name, so at most one handler matches. */
  lemma InternalCommandsDistinct()
    ensures forall i, j :: 0 <= i < j < |InternalCommands| ==> InternalCommands[i] != InternalCommands[j]
  {
  }

  /** The table entry named `command`, found by comparing against every
      entry as the callback's loop does. */
  method FindHandler(command: string) returns (index: Option<nat>)
    ensures index.None? <==> command !in InternalCommands
    ensures index.Some? ==> index.value < |InternalCommands| && InternalCommands[index.value] == command
  {
    index := None;
    var i := 0;
    while i < |InternalCommands|
      invariant 0 <= i <= |InternalCommands|
      invariant index.None? <==> command !in InternalCommands[..i]
      invariant index.Some? ==> index.value < i && InternalCommands[index.value] == command
    {
      if InternalCommands[i] == command {
        index := Some(i);
      }
      i := i + 1;
    }
    assert InternalCommands[..i] == InternalCommands;
  }

  /** The counter the callback leaves behind: a counter that the handler
      advanced is reset to its value at the start, unless the replay has
      diverged from the recording. */
  function CounterAfterCommand(start: nat, afterHandler: nat, diverged: bool): (counter: nat)
    ensures counter == start || counter == afterHandler
    ensures !diverged ==> counter <= start
    ensures !diverged && start <= afterHandler ==> counter == start
    ensures diverged ==> counter == afterHandler
  {
    if start < afterHandler && !diverged then start else afterHandler
  }

  /** What the callback answers: the reply text, or a crash. */
  function Answer(command: string, paramsParse: bool, internalReply: Option<string>,
                  hasGenericHandler: bool, genericReply: Option<string>): (r: Result<string>)
    ensures !paramsParse ==> r.Crash?
    ensures paramsParse && command in InternalCommands ==>
              (r.Ok? <==> internalReply.Some?) && (r.Ok? ==> r.value == internalReply.value)
    ensures paramsParse && command !in InternalCommands ==>
              (r.Ok? <==> hasGenericHandler && genericReply.Some?) && (r.Ok? ==> r.value == genericReply.value)
  {
    if !paramsParse then Crash("Error: CommandCallback Parse failed")
    else if command in InternalCommands then
      if internalReply.None? then Crash("Error: CommandCallback internal command failed") else Ok(internalReply.value)
    else if !hasGenericHandler then Crash("CHECK failed: gCommandCallback")
    else if genericReply.None? then Crash("Error: CommandCallback generic command failed")
    else Ok(genericReply.value)
  }

  class CommandHost {
    /** `*gProgressCounter`. */
    var progressCounter: nat

    constructor(counter: nat)
      ensures progressCounter == counter
    {
      progressCounter := counter;
    }

    /** `CommandCallback`. `internalReply` is what the matching table
        handler answers, `genericReply` what the JavaScript handler
        (`gCommandCallback`, present when `hasGenericHandler`) answers, and
        `counterAfterHandler` the progress counter once the handler
        returned. */
    method CommandCallback(command: string, paramsParse: bool, internalReply: Option<string>,
                           hasGenericHandler: bool, genericReply: Option<string>,
                           counterAfterHandler: nat, diverged: bool) returns (r: Result<string>)
      modifies this
      ensures r == Answer(command, paramsParse, internalReply, hasGenericHandler, genericReply)
      ensures r.Ok? ==> progressCounter == CounterAfterCommand(old(progressCounter), counterAfterHandler, diverged)
    {
      var start := progressCounter;
      if !paramsParse {
        return Crash("Error: CommandCallback Parse failed");
      }
      var handler := FindHandler(command);
      var reply: Option<string> := None;
      if handler.Some? {
        if internalReply.None? {
          return Crash("Error: CommandCallback internal command failed");
        }
        reply := internalReply;
      }
      if reply.None? {
        if !hasGenericHandler {
          return Crash("CHECK failed: gCommandCallback");
        }
        if genericReply.None? {
          return Crash("Error: CommandCallback generic command failed");
        }
        reply := genericReply;
      }
      progressCounter := counterAfterHandler;
      if start < progressCounter && !diverged {
        progressCounter := start;
      }
      r := Ok(reply.value);
    }
  }
}
