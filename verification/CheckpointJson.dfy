/** The dictionary form of a checkpoint
    (infrastructure/storage/checkpoint/file_system.py). */
module CheckpointJson {
  import opened Wrappers
  import opened Checkpoints

  type Dict = map<string, Json>

  datatype LoadError = KeyError(key: string) | ValueError(text: string) | TypeError(key: string)

  function TriggerText(t: Trigger): string {
    match t
    case STEP_COMPLETE => "STEP_COMPLETE"
    case BEFORE_TOOL_CALL => "BEFORE_TOOL_CALL"
    case AFTER_TOOL_CALL => "AFTER_TOOL_CALL"
    case ERROR_RECOVERY => "ERROR_RECOVERY"
    case PAUSE_REQUEST => "PAUSE_REQUEST"
    case BEFORE_IRREVERSIBLE => "BEFORE_IRREVERSIBLE"
  }

  function ParseTrigger(s: string): Result<Trigger, LoadError> {
    if s == "STEP_COMPLETE" then Ok(STEP_COMPLETE)
    else if s == "BEFORE_TOOL_CALL" then Ok(BEFORE_TOOL_CALL)
    else if s == "AFTER_TOOL_CALL" then Ok(AFTER_TOOL_CALL)
    else if s == "ERROR_RECOVERY" then Ok(ERROR_RECOVERY)
    else if s == "PAUSE_REQUEST" then Ok(PAUSE_REQUEST)
    else if s == "BEFORE_IRREVERSIBLE" then Ok(BEFORE_IRREVERSIBLE)
    else Err(ValueError(s))
  }

  function OptionalText(o: Option<string>): Json {
    if o.Some? then JString(o.value) else JNull
  }

  function Texts(ss: seq<string>): (js: seq<Json>)
    ensures |js| == |ss| && forall i | 0 <= i < |ss| :: js[i] == JString(ss[i])
  {
    seq(|ss|, i requires 0 <= i < |ss| => JString(ss[i]))
  }

  function Objects(ds: seq<Dict>): (js: seq<Json>)
    ensures |js| == |ds| && forall i | 0 <= i < |ds| :: js[i] == JObject(ds[i])
  {
    seq(|ds|, i requires 0 <= i < |ds| => JObject(ds[i]))
  }

  function ToDict(cp: Checkpoint): Dict {
    map["checkpoint_id" := JString(cp.checkpointId),
        "execution_id" := JString(cp.executionId),
        "version" := JNumber(cp.version),
        "trigger_reason" := JString(TriggerText(cp.triggerReason)),
        "checkpoint_hash" := JString(cp.checkpointHash),
        "schema_version" := JString(cp.schemaVersion),
        "parent_checkpoint_id" := OptionalText(cp.parentId),
        "agent_state_ref" := OptionalText(cp.agentStateRef),
        "memory_refs" := JArray(Texts(cp.memoryRefs)),
        "tool_history" := JArray(Objects(cp.toolHistory)),
        "created_at" := OptionalText(cp.createdAt)]
  }

  // data[key], for text.
  function Text(d: Dict, key: string): Result<string, LoadError> {
    if key !in d then Err(KeyError(key))
    else if d[key].JString? then Ok(d[key].text)
    else Err(TypeError(key))
  }

  // data.get(key, default), for text.
  function TextOr(d: Dict, key: string, default: string): Result<string, LoadError> {
    if key in d then Text(d, key) else Ok(default)
  }

  // data.get(key), for text or null.
  function OptionalOf(d: Dict, key: string): Result<Option<string>, LoadError> {
    if key !in d || d[key].JNull? then Ok(None)
    else if d[key].JString? then Ok(Some(d[key].text))
    else Err(TypeError(key))
  }

  function ItemsOr(d: Dict, key: string): Result<seq<Json>, LoadError> {
    if key !in d then Ok([]) else if d[key].JArray? then Ok(d[key].items) else Err(TypeError(key))
  }

  function AllTexts(js: seq<Json>): Option<seq<string>> {
    if forall j | j in js :: j.JString? then
      Some(seq(|js|, i requires 0 <= i < |js| => assert js[i] in js; js[i].text))
    else None
  }

  function AllObjects(js: seq<Json>): Option<seq<Dict>> {
    if forall j | j in js :: j.JObject? then
      Some(seq(|js|, i requires 0 <= i < |js| => assert js[i] in js; js[i].fields))
    else None
  }

  // An empty or missing moment reads as none.
  function MomentOf(o: Option<string>): Option<IsoText> {
    if o.Some? && o.value != "" then Some(o.value) else None
  }

  // Keys are looked up in the order the constructor call names them.
  function FromDict(d: Dict): Result<Checkpoint, LoadError> {
    var created := OptionalOf(d, "created_at");
    if created.Err? then Err(created.error) else
    var id := Text(d, "checkpoint_id");
    if id.Err? then Err(id.error) else
    var execution := Text(d, "execution_id");
    if execution.Err? then Err(execution.error) else
    if "version" !in d then Err(KeyError("version")) else
    if !d["version"].JNumber? then Err(TypeError("version")) else
    var triggerText := Text(d, "trigger_reason");
    if triggerText.Err? then Err(triggerText.error) else
    var trigger := ParseTrigger(triggerText.value);
    if trigger.Err? then Err(trigger.error) else
    var hash := Text(d, "checkpoint_hash");
    if hash.Err? then Err(hash.error) else
    var schema := TextOr(d, "schema_version", "1.0");
    if schema.Err? then Err(schema.error) else
    var parent := OptionalOf(d, "parent_checkpoint_id");
    if parent.Err? then Err(parent.error) else
    var state := OptionalOf(d, "agent_state_ref");
    if state.Err? then Err(state.error) else
    var refs := ItemsOr(d, "memory_refs");
    if refs.Err? then Err(refs.error) else
    var tools := ItemsOr(d, "tool_history");
    if tools.Err? then Err(tools.error) else
    if AllTexts(refs.value).None? then Err(TypeError("memory_refs")) else
    if AllObjects(tools.value).None? then Err(TypeError("tool_history")) else
    Ok(Checkpoint(id.value, execution.value, d["version"].n, trigger.value, hash.value, schema.value,
                  parent.value, state.value, AllTexts(refs.value).value, AllObjects(tools.value).value,
                  MomentOf(created.value)))
  }

  lemma ListsComeBack(ss: seq<string>, ds: seq<Dict>)
    ensures AllTexts(Texts(ss)) == Some(ss)
    ensures AllObjects(Objects(ds)) == Some(ds)
  {
    assert forall j | j in Texts(ss) :: j.JString?;
    assert forall j | j in Objects(ds) :: j.JObject?;
    assert AllTexts(Texts(ss)).value == ss;
    assert AllObjects(Objects(ds)).value == ds;
  }

  // Every field of the checkpoint is under its key.
  ghost predicate IsDictOf(d: Dict, cp: Checkpoint) {
    && OptionalOf(d, "created_at") == Ok(if cp.createdAt.Some? then Some(cp.createdAt.value) else None)
    && Text(d, "checkpoint_id") == Ok(cp.checkpointId) && Text(d, "execution_id") == Ok(cp.executionId)
    && "version" in d && d["version"] == JNumber(cp.version)
    && Text(d, "trigger_reason") == Ok(TriggerText(cp.triggerReason))
    && Text(d, "checkpoint_hash") == Ok(cp.checkpointHash)
    && TextOr(d, "schema_version", "1.0") == Ok(cp.schemaVersion)
    && OptionalOf(d, "parent_checkpoint_id") == Ok(cp.parentId)
    && OptionalOf(d, "agent_state_ref") == Ok(cp.agentStateRef)
    && ItemsOr(d, "memory_refs") == Ok(Texts(cp.memoryRefs))
    && ItemsOr(d, "tool_history") == Ok(Objects(cp.toolHistory))
  }

  /** The keys of the file: each field is written under its own. */
  lemma DictFields(cp: Checkpoint)
    ensures IsDictOf(ToDict(cp), cp)
  {
  }

  // Such a dictionary reads as that checkpoint.
  lemma DictReads(d: Dict, cp: Checkpoint)
    requires IsDictOf(d, cp)
    ensures FromDict(d) == Ok(cp)
  {
    ListsComeBack(cp.memoryRefs, cp.toolHistory);
    assert ParseTrigger(TriggerText(cp.triggerReason)) == Ok(cp.triggerReason);
    assert MomentOf(cp.createdAt) == cp.createdAt;
  }

  /** Round trip: reading back what was written gives the same checkpoint, every
      field included. */
  lemma DictRoundTrip(cp: Checkpoint)
    ensures FromDict(ToDict(cp)) == Ok(cp)
  {
    DictFields(cp);
    DictReads(ToDict(cp), cp);
  }

  /** The six triggers are written by their own names, and no other text reads as one. */
  lemma TriggerTexts(s: string)
    ensures ParseTrigger(s) == Ok(STEP_COMPLETE) <==> s == "STEP_COMPLETE"
    ensures ParseTrigger(s) == Ok(BEFORE_TOOL_CALL) <==> s == "BEFORE_TOOL_CALL"
    ensures ParseTrigger(s) == Ok(AFTER_TOOL_CALL) <==> s == "AFTER_TOOL_CALL"
    ensures ParseTrigger(s) == Ok(ERROR_RECOVERY) <==> s == "ERROR_RECOVERY"
    ensures ParseTrigger(s) == Ok(PAUSE_REQUEST) <==> s == "PAUSE_REQUEST"
    ensures ParseTrigger(s) == Ok(BEFORE_IRREVERSIBLE) <==> s == "BEFORE_IRREVERSIBLE"
    ensures ParseTrigger(s).Err? ==> ParseTrigger(s).error == ValueError(s)
  {
  }

  const REQUIRED: set<string> :=
    {"checkpoint_id", "execution_id", "version", "trigger_reason", "checkpoint_hash"}

  // Another key reads as before.
  lemma ReadsOn(d: Dict, key: string, k: string)
    requires k != key
    ensures var cut := d - {key};
            && Text(cut, k) == Text(d, k) && TextOr(cut, k, "1.0") == TextOr(d, k, "1.0")
            && OptionalOf(cut, k) == OptionalOf(d, k) && ItemsOr(cut, k) == ItemsOr(d, k)
            && (k in cut <==> k in d) && (k in d ==> cut[k] == d[k])
  {
  }

  lemma RequiredReadOn(d: Dict, cp: Checkpoint, key: string)
    requires IsDictOf(d, cp) && key !in REQUIRED
    ensures var cut := d - {key};
            && Text(cut, "checkpoint_id") == Ok(cp.checkpointId) && Text(cut, "execution_id") == Ok(cp.executionId)
            && "version" in cut && cut["version"] == JNumber(cp.version)
            && Text(cut, "trigger_reason") == Ok(TriggerText(cp.triggerReason))
            && Text(cut, "checkpoint_hash") == Ok(cp.checkpointHash)
  {
    ReadsOn(d, key, "checkpoint_id");
    ReadsOn(d, key, "execution_id");
    ReadsOn(d, key, "version");
    ReadsOn(d, key, "trigger_reason");
    ReadsOn(d, key, "checkpoint_hash");
  }

  // A missing key reads as its default.
  lemma MissingReads(d: Dict, key: string)
    ensures var cut := d - {key};
            && Text(cut, key) == Err(KeyError(key)) && TextOr(cut, key, "1.0") == Ok("1.0")
            && OptionalOf(cut, key) == Ok(None) && ItemsOr(cut, key) == Ok([]) && key !in cut
  {
  }

  /** Without one of the five required keys a file does not read as a checkpoint:
      the error is the missing key. */
  lemma RequiredKeys(d: Dict, cp: Checkpoint, key: string)
    requires IsDictOf(d, cp) && key in REQUIRED
    ensures FromDict(d - {key}) == Err(KeyError(key))
  {
    MissingReads(d, key);
    ReadsOn(d, key, "created_at");
    if key != "checkpoint_id" {
      ReadsOn(d, key, "checkpoint_id");
      if key != "execution_id" {
        ReadsOn(d, key, "execution_id");
        if key != "version" {
          ReadsOn(d, key, "version");
          if key != "trigger_reason" {
            ReadsOn(d, key, "trigger_reason");
            assert ParseTrigger(TriggerText(cp.triggerReason)) == Ok(cp.triggerReason);
          }
        }
      }
    }
  }

  // The same checkpoint with what a missing key stands for.
  function Defaulted(cp: Checkpoint, key: string): Checkpoint {
    cp.(schemaVersion := if key == "schema_version" then "1.0" else cp.schemaVersion,
        parentId := if key == "parent_checkpoint_id" then None else cp.parentId,
        agentStateRef := if key == "agent_state_ref" then None else cp.agentStateRef,
        memoryRefs := if key == "memory_refs" then [] else cp.memoryRefs,
        toolHistory := if key == "tool_history" then [] else cp.toolHistory,
        createdAt := if key == "created_at" then None else cp.createdAt)
  }

  lemma OptionalReadOn(d: Dict, key: string, k: string)
    ensures var cut := d - {key};
            && TextOr(cut, k, "1.0") == (if key == k then Ok("1.0") else TextOr(d, k, "1.0"))
            && OptionalOf(cut, k) == (if key == k then Ok(None) else OptionalOf(d, k))
            && ItemsOr(cut, k) == (if key == k then Ok([]) else ItemsOr(d, k))
  {
    if key == k {
      MissingReads(d, key);
    } else {
      ReadsOn(d, key, k);
    }
  }

  /** Each of the other keys may be missing and has a default. */
  lemma OptionalKeys(d: Dict, cp: Checkpoint, key: string)
    requires IsDictOf(d, cp) && key !in REQUIRED
    ensures FromDict(d - {key}) == Ok(Defaulted(cp, key))
  {
    RequiredReadOn(d, cp, key);
    OptionalReadOn(d, key, "created_at");
    OptionalReadOn(d, key, "schema_version");
    OptionalReadOn(d, key, "parent_checkpoint_id");
    OptionalReadOn(d, key, "agent_state_ref");
    OptionalReadOn(d, key, "memory_refs");
    OptionalReadOn(d, key, "tool_history");
    assert Texts([]) == [] && Objects([]) == [];
    DictReads(d - {key}, Defaulted(cp, key));
  }
}
