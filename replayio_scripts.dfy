/** The script registry (src/replayio/replayio-api.cc and
    src/replayio/replayio-commands.cc, which carry two versions of
    `RecordReplayRegisterScript`).
    `gRecordReplayScripts` maps script ids to scripts, and `gRegisteredScripts`
    holds the ids of the scripts that were announced to the recorder. A null
    map or set behaves as an empty one, so both are plain collections here.
    What the recorder is told is kept as logs: the interesting sources, the
    `OnNewSource` notifications and the replay events emitted. */
module Scripts {
  import opened Wrappers
  import Decimal

  /** What registration reads of a V8 `Script`: its id, its name (`None`
      when undefined), whether it is WebAssembly, and the line and column of
      its position 0 as `Script::GetPositionInfo` reports them. */
  datatype Script = Script(id: int, name: Option<string>, isWasm: bool, startLine: int, startColumn: int)

  /** An `OnNewSource` notification: the protocol source id, the kind and
      the URL (`None` for the null pointer passed when the URL is empty). */
  datatype NewSource = NewSource(id: string, kind: string, url: Option<string>)

  const InlineScript := "inlineScript"
  const ScriptSource := "scriptSource"

  /** The script's URL: its name, or "" when the name is undefined. */
  function Url(script: Script): string {
    if script.name.Some? then script.name.value else ""
  }

  /** `RecordReplayIsInternalScriptURL` of replayio-api.cc. */
  predicate IsInternalScriptUrl(url: string)
    ensures IsInternalScriptUrl(url) ==> "record-replay-" <= url || "extensions::" <= url
  {
    url == "record-replay-react-devtools" || url == "record-replay-internal" || "extensions::" <= url
  }

  /** `RecordReplayIsInternalScriptURL` of replayio-commands.cc, which asks
      `RecordReplayIsInternalReplayJs` (passed in as `internalReplayJs`)
      instead of naming "record-replay-internal". */
  predicate IsInternalScriptUrlWithOracle(url: string, internalReplayJs: bool)
    ensures internalReplayJs ==> IsInternalScriptUrlWithOracle(url, internalReplayJs)
    ensures (IsInternalScriptUrl(url) && url != "record-replay-internal")
            ==> IsInternalScriptUrlWithOracle(url, internalReplayJs)
  {
    url == "record-replay-react-devtools" || internalReplayJs || "extensions::" <= url
  }

  /** The two versions agree whenever the oracle recognises exactly the URL
      "record-replay-internal". */
  lemma InternalScriptUrlVersionsAgree(url: string, internalReplayJs: bool)
    requires internalReplayJs <==> url == "record-replay-internal"
    ensures IsInternalScriptUrl(url) <==> IsInternalScriptUrlWithOracle(url, internalReplayJs)
  {
  }

  /** Internal URLs are the two fixed names and everything under
      "extensions::"; the empty URL is not internal. */
  lemma InternalScriptUrls(suffix: string)
    ensures IsInternalScriptUrl("extensions::" + suffix)
    ensures !IsInternalScriptUrl("")
    ensures !IsInternalScriptUrl("extensions:")
  {
    assert "extensions::" <= "extensions::" + suffix;
  }

  /** The kind reported for a new source. */
  function ScriptKind(url: string, startLine: int, startColumn: int): (kind: string)
    ensures kind == InlineScript || kind == ScriptSource
    ensures kind == InlineScript <==> (startLine != 0 || startColumn != 0) && url != ""
  {
    if (startLine != 0 || startColumn != 0) && url != "" then InlineScript else ScriptSource
  }

  /** The notification a newly announced script produces. */
  function NewSourceOf(script: Script): NewSource {
    var url := Url(script);
    NewSource(Decimal.IntToString(script.id), ScriptKind(url, script.startLine, script.startColumn),
              if url == "" then None else Some(url))
  }

  class ScriptRegistry {
    var scripts: map<int, Script>
    var registered: set<int>
    var interestingSources: seq<string>
    var newSources: seq<NewSource>
    var replayEvents: seq<string>

    /** Only stored scripts are ever registered. */
    predicate Valid()
      reads this
    {
      registered <= scripts.Keys
    }

    constructor()
      ensures Valid()
      ensures scripts == map[] && registered == {}
      ensures interestingSources == [] && newSources == [] && replayEvents == []
    {
      scripts := map[];
      registered := {};
      interestingSources := [];
      newSources := [];
      replayEvents := [];
    }

    /** `RecordReplayHasRegisteredScript` (both files): false off the main
        thread, otherwise membership in the registered set. */
    predicate HasRegisteredScript(onMainThread: bool, scriptId: int)
      reads this
      ensures HasRegisteredScript(onMainThread, scriptId) ==> onMainThread
      ensures Valid() && HasRegisteredScript(onMainThread, scriptId) ==> scriptId in scripts
    {
      onMainThread && scriptId in registered
    }

    /** Announces a script that passed the gates: the interesting-source
        log, the registered set and the new-source log. */
    method Announce(script: Script)
      requires Valid() && script.id in scripts
      modifies this
      ensures Valid()
      ensures scripts == old(scripts) && replayEvents == old(replayEvents)
      ensures registered == old(registered) + {script.id}
      ensures interestingSources == old(interestingSources)
                + (if IsInternalScriptUrl(Url(script)) then [] else [Url(script)])
      ensures newSources == old(newSources) + [NewSourceOf(script)]
    {
      var url := Url(script);
      if !IsInternalScriptUrl(url) {
        interestingSources := interestingSources + [url];
      }
      registered := registered + {script.id};
      newSources := newSources + [NewSourceOf(script)];
    }

    /** `RecordReplayRegisterScript` of replayio-api.cc. A known id is
        ignored. Otherwise the script is stored, and it is announced only
        when there is a default context, it is not WebAssembly and events
        are allowed. (The new-script handlers it then calls are JavaScript
        and are not modelled.) */
    method RegisterScript(script: Script, hasDefaultContext: bool, eventsDisallowed: bool)
      requires Valid()
      modifies this
      ensures Valid()
      ensures script.id in old(scripts) ==>
                && scripts == old(scripts) && registered == old(registered)
                && interestingSources == old(interestingSources) && newSources == old(newSources)
      ensures script.id !in old(scripts) ==> scripts == old(scripts)[script.id := script]
      ensures var announced := script.id !in old(scripts) && hasDefaultContext
                               && !script.isWasm && !eventsDisallowed;
              && registered == old(registered) + (if announced then {script.id} else {})
              && newSources == old(newSources) + (if announced then [NewSourceOf(script)] else [])
              && interestingSources == old(interestingSources)
                   + (if announced && !IsInternalScriptUrl(Url(script)) then [Url(script)] else [])
      ensures replayEvents == old(replayEvents)
    {
      if script.id in scripts {
        return;
      }
      scripts := scripts[script.id := script];
      if !hasDefaultContext || script.isWasm || eventsDisallowed {
        return;
      }
      Announce(script);
    }

    /** `RecordReplayRegisterScript` of replayio-commands.cc. Like the other
        version, but the gate is a root context for the current context, a
        null current context fails a CHECK once the script is stored, and
        scripts that are not internal Replay JS (`internalReplayJs`, the
        answer of `RecordReplayIsInternalReplayJs`) also emit the
        "newScript" and "newScriptEventsDisallowed" events. The
        interesting-source test asks the same oracle. Returns false when the
        CHECK fails. */
    method RegisterScriptWithRoot(script: Script, hasContext: bool, hasRootContext: bool,
                                  eventsDisallowed: bool, internalReplayJs: bool) returns (ok: bool)
      requires Valid()
      modifies this
      ensures Valid()
      ensures script.id in old(scripts) ==>
                && ok && scripts == old(scripts) && registered == old(registered)
                && interestingSources == old(interestingSources) && newSources == old(newSources)
                && replayEvents == old(replayEvents)
      ensures script.id !in old(scripts) ==> scripts == old(scripts)[script.id := script]
      ensures !ok <==> script.id !in old(scripts) && !hasContext
      ensures var announced := script.id !in old(scripts) && hasContext && hasRootContext
                               && !script.isWasm && !eventsDisallowed;
              && registered == old(registered) + (if announced then {script.id} else {})
              && newSources == old(newSources) + (if announced then [NewSourceOf(script)] else [])
              && interestingSources == old(interestingSources)
                   + (if announced && !IsInternalScriptUrlWithOracle(Url(script), internalReplayJs)
                      then [Url(script)] else [])
              && replayEvents == old(replayEvents)
                   + (if announced && !internalReplayJs
                      then ["newScript", "newScriptEventsDisallowed"] else [])
    {
      ok := true;
      if script.id in scripts {
        return;
      }
      scripts := scripts[script.id := script];
      if !hasContext {
        return false;
      }
      if !hasRootContext || script.isWasm || eventsDisallowed {
        return;
      }
      var url := Url(script);
      if !IsInternalScriptUrlWithOracle(url, internalReplayJs) {
        interestingSources := interestingSources + [url];
      }
      registered := registered + {script.id};
      if !internalReplayJs {
        replayEvents := replayEvents + ["newScript", "newScriptEventsDisallowed"];
      }
      newSources := newSources + [NewSourceOf(script)];
    }
  }

  /** A script reported as registered is a stored script. */
  lemma RegisteredScriptIsStored(registry: ScriptRegistry, onMainThread: bool, scriptId: int)
    requires registry.Valid()
    requires registry.HasRegisteredScript(onMainThread, scriptId)
    ensures onMainThread && scriptId in registry.scripts
  {
  }

  /** The protocol source id of a new source reads back as the script id. */
  lemma NewSourceIdOfScript(script: Script)
    ensures Decimal.Atoi(NewSourceOf(script).id) == script.id
  {
    Decimal.AtoiOfIntToString(script.id, []);
    assert Decimal.IntToString(script.id) + [] == Decimal.IntToString(script.id);
  }
}
