// Product policy for managed cron tasks and scoped GBrain tools
// (integrations/opagent/product_policy.go).
module Policy {
  import opened Letters
  import opened Options
  import opened Text

  // A decoded JSON or host value, as far as the policy looks at it.
  datatype Value =
    | Null
    | Str(text: string)
    | StrList(texts: seq<string>)
    | List(items: seq<Value>)
    | Object(fields: map<string, Value>)
    | Other

  type Fields = map<string, Value>

  function Get(fields: Fields, key: string): Value {
    if key in fields then fields[key] else Null
  }

  function StringValue(value: Value): string {
    if value.Str? then value.text else ""
  }

  // metaObject: absent and mistyped values are alike.
  function MetaObject(fields: Fields, key: string): Maybe<Fields> {
    match Get(fields, key)
    case Object(inner) => Present(inner)
    case _ => Absent
  }

  function MetaString(fields: Fields, key: string): string {
    StringValue(Get(fields, key))
  }

  function Texts(value: Value): seq<string> {
    match value
    case StrList(texts) => texts
    case List(items) => seq(|items|, i requires 0 <= i < |items| => StringValue(items[i]))
    case _ => []
  }

  predicate ListContains(value: Value, expected: string) {
    exists i :: 0 <= i < |Texts(value)| && TrimSpace(Texts(value)[i]) == expected
  }

  // stringListContains
  method StringListContains(value: Value, expected: string) returns (found: bool)
    ensures found == ListContains(value, expected)
  {
    hide TrimSpace;
    var texts := Texts(value);
    for i := 0 to |texts|
      invariant forall j :: 0 <= j < i ==> TrimSpace(texts[j]) != expected
    {
      if TrimSpace(texts[i]) == expected {
        return true;
      }
    }
    return false;
  }

  // ---------- managed cron tasks ----------

  const CLOUD_SYNC_TASK := "task-openbrain-cloud-sync"
  const CLOUD_SYNC_KIND := "openbrain-cloud-sync"
  const CLOUD_SYNC_SKILL := "skill-openbrain-cloud-sync"
  const CLOUD_SYNC_AGENT := "agent-coder"
  const AGENT_TURN := "agentTurn"
  const PREAMBLE := "Run OpenBrain Cloud Sync."

  datatype Payload = Payload(kind: string, text: string, data: Fields)

  datatype Task = Task(id: string, targetKind: string, targetAgent: string, payload: Payload)

  datatype Verdict = Admit | Reject(reason: string)

  predicate ContextManaged(data: Fields) {
    var context := MetaObject(data, "selectedSkillContext");
    context.Present? && TrimSpace(MetaString(context.value, "managedKind")) == CLOUD_SYNC_KIND
  }

  // isCloudSyncPayload: any one marker is enough.
  predicate IsCloudSync(payload: Payload) {
    || TrimSpace(MetaString(payload.data, "managedKind")) == CLOUD_SYNC_KIND
    || ListContains(Get(payload.data, "selectedSkillIDs"), CLOUD_SYNC_SKILL)
    || ContextManaged(payload.data)
  }

  function ValidatePayload(payload: Payload): Verdict {
    if TrimSpace(payload.kind) != AGENT_TURN || !HasPrefix(TrimSpace(payload.text), PREAMBLE) then
      Reject("payload shape")
    else if TrimSpace(MetaString(payload.data, "managedKind")) != CLOUD_SYNC_KIND then
      Reject("managed kind")
    else if !ListContains(Get(payload.data, "selectedSkillIDs"), CLOUD_SYNC_SKILL) then
      Reject("product skill")
    else if !ContextManaged(payload.data) then
      Reject("skill context")
    else Admit
  }

  predicate IsManagedId(id: string) {
    TrimSpace(id) == CLOUD_SYNC_TASK
  }

  predicate TargetsManagedAgent(task: Task) {
    TrimSpace(task.targetKind) == "agent" && TrimSpace(task.targetAgent) == CLOUD_SYNC_AGENT
  }

  function AuthorizeTask(task: Task): Verdict {
    var protected := IsManagedId(task.id) || IsCloudSync(task.payload);
    if !protected then Admit
    else if !IsManagedId(task.id) then Reject("identity is reserved")
    else if !TargetsManagedAgent(task) then Reject("target")
    else ValidatePayload(task.payload)
  }

  // A cron request after JSON decoding; Undecodable stands for content that is not JSON or
  // does not decode.
  datatype Call =
    | Undecodable
    | Write(task: Task)
    | Run(id: string, override: Maybe<Payload>)
    | OtherCall

  function CronPolicy(call: Call): Verdict {
    match call
    case Undecodable => Reject("decode")
    case Write(task) => AuthorizeTask(task)
    case Run(id, override) =>
      if !IsManagedId(id) then
        if override.Present? && IsCloudSync(override.value) then Reject("payload is reserved") else Admit
      else if override.Absent? then Admit
      else ValidatePayload(override.value)
    case OtherCall => Admit
  }

  type Table = map<string, Task>

  // The cron table after a list of calls: an admitted write stores its task whole.
  function TableAfter(calls: seq<Call>): Table
    decreases |calls|
  {
    if calls == [] then map[]
    else
      var before := TableAfter(calls[..|calls| - 1]);
      var last := calls[|calls| - 1];
      if last.Write? && CronPolicy(last).Admit? then before[last.task.id := last.task] else before
  }

  ghost predicate TaskKept(task: Task) {
    && (IsCloudSync(task.payload) <==> IsManagedId(task.id))
    && (IsManagedId(task.id) ==> TargetsManagedAgent(task) && ValidatePayload(task.payload).Admit?)
  }

  // Every payload that validates is recognised as Cloud Sync.
  lemma ValidatedIsRecognised(payload: Payload)
    requires ValidatePayload(payload).Admit?
    ensures IsCloudSync(payload)
  {
    hide TrimSpace;
  }

  // Over every list of calls: in the table a task carries a Cloud Sync marker exactly when
  // it has the managed id, and then it targets the managed agent with a valid payload.
  lemma {:induction false} TableKeepsPolicy(calls: seq<Call>)
    ensures forall id :: id in TableAfter(calls) ==> TableAfter(calls)[id].id == id && TaskKept(TableAfter(calls)[id])
    decreases |calls|
  {
    hide AuthorizeTask, TaskKept;
    if calls == [] {
    } else {
      TableKeepsPolicy(calls[..|calls| - 1]);
      var last := calls[|calls| - 1];
      if last.Write? && CronPolicy(last).Admit? {
        AdmittedTaskKept(last.task);
      }
    }
  }

  lemma AdmittedTaskKept(task: Task)
    requires AuthorizeTask(task).Admit?
    ensures TaskKept(task)
  {
    hide TrimSpace;
    if IsManagedId(task.id) {
      ValidatedIsRecognised(task.payload);
    }
  }

  // What a run executes: the override if there is one, else the stored payload.
  function Executed(table: Table, id: string, override: Maybe<Payload>): Maybe<Payload> {
    if override.Present? then override
    else if id in table then Present(table[id].payload)
    else Absent
  }

  // The two-way rule for what a run executes.
  predicate ObeysRule(id: string, run: Maybe<Payload>) {
    run.Present? ==>
      && (IsCloudSync(run.value) <==> IsManagedId(id))
      && (IsManagedId(id) ==> ValidatePayload(run.value).Admit?)
  }

  // After any calls, an admitted run executes a Cloud Sync payload exactly when its id is
  // the managed one, and then the payload is valid.
  lemma RunsKeepPolicy(calls: seq<Call>, id: string, override: Maybe<Payload>)
    requires CronPolicy(Run(id, override)).Admit?
    ensures ObeysRule(id, Executed(TableAfter(calls), id, override))
  {
    hide ValidatePayload, IsCloudSync, IsManagedId;
    TableKeepsPolicy(calls);
    if override.Present? && IsManagedId(id) {
      ValidatedIsRecognised(override.value);
    }
  }

  // The other way round: a run is refused only for an override that breaks the rule.
  lemma RunRefusedExactly(id: string, payload: Payload)
    ensures CronPolicy(Run(id, Absent)).Admit?
    ensures CronPolicy(Run(id, Present(payload))).Admit? <==>
            if IsManagedId(id) then ValidatePayload(payload).Admit? else !IsCloudSync(payload)
  {
  }

  // So after any calls the policy admits exactly the runs that would execute by the rule.
  lemma RunsAdmittedExactly(calls: seq<Call>, id: string, override: Maybe<Payload>)
    ensures CronPolicy(Run(id, override)).Admit? <==> ObeysRule(id, Executed(TableAfter(calls), id, override))
  {
    hide ValidatePayload, IsCloudSync, IsManagedId, TableAfter;
    if override.Present? {
      RunRefusedExactly(id, override.value);
      if ValidatePayload(override.value).Admit? { ValidatedIsRecognised(override.value); }
    } else {
      RunsKeepPolicy(calls, id, override);
    }
  }

  // ---------- the policy by its markers ----------

  // The three ways a payload says that it is Cloud Sync.
  datatype Marker = ManagedKind | ProductSkill | SkillContext

  // The trimmed text of the value under a key is the given one.
  predicate Says(fields: Fields, key: string, text: string) {
    key in fields && fields[key].Str? && TrimSpace(fields[key].text) == text
  }

  // One of the list's texts is the given one, trimmed.
  predicate Lists(fields: Fields, key: string, text: string) {
    && key in fields
    && match fields[key]
       case StrList(texts) => exists i :: 0 <= i < |texts| && TrimSpace(texts[i]) == text
       case List(items) => exists i :: 0 <= i < |items| && items[i].Str? && TrimSpace(items[i].text) == text
       case _ => false
  }

  predicate Carries(payload: Payload, marker: Marker) {
    match marker
    case ManagedKind => Says(payload.data, "managedKind", "openbrain-cloud-sync")
    case ProductSkill => Lists(payload.data, "selectedSkillIDs", "skill-openbrain-cloud-sync")
    case SkillContext =>
      && "selectedSkillContext" in payload.data && payload.data["selectedSkillContext"].Object?
      && Says(payload.data["selectedSkillContext"].fields, "managedKind", "openbrain-cloud-sync")
  }

  // An agent turn with the product's prompt and every marker.
  predicate IsProductPayload(payload: Payload) {
    && TrimSpace(payload.kind) == "agentTurn" && "Run OpenBrain Cloud Sync." <= TrimSpace(payload.text)
    && forall marker :: Carries(payload, marker)
  }

  lemma SaysMeaning(fields: Fields, key: string, text: string)
    requires text != ""
    ensures TrimSpace(MetaString(fields, key)) == text <==> Says(fields, key, text)
  {
    hide SpaceHead, SpaceTail;
  }

  lemma EmptyTrimmed()
    ensures TrimSpace("") == ""
  {
  }

  lemma ListsMeaning(fields: Fields, key: string, text: string)
    requires text != ""
    ensures ListContains(Get(fields, key), text) <==> Lists(fields, key, text)
  {
    hide TrimSpace;
    EmptyTrimmed();
    var value := Get(fields, key);
    match value
    case StrList(texts) => assert Texts(value) == texts;
    case List(items) =>
      assert forall i :: 0 <= i < |items| ==> Texts(value)[i] == StringValue(items[i]);
      if Lists(fields, key, text) {
        var i :| 0 <= i < |items| && items[i].Str? && TrimSpace(items[i].text) == text;
        assert TrimSpace(Texts(value)[i]) == text;
      }
      if ListContains(value, text) {
        var i :| 0 <= i < |Texts(value)| && TrimSpace(Texts(value)[i]) == text;
        assert items[i].Str? && TrimSpace(items[i].text) == text;
      }
    case _ =>
  }

  lemma MarkersMeaning(payload: Payload)
    ensures Carries(payload, ManagedKind) <==> TrimSpace(MetaString(payload.data, "managedKind")) == CLOUD_SYNC_KIND
    ensures Carries(payload, ProductSkill) <==> ListContains(Get(payload.data, "selectedSkillIDs"), CLOUD_SYNC_SKILL)
    ensures Carries(payload, SkillContext) <==> ContextManaged(payload.data)
  {
    hide TrimSpace, Says, Lists, ListContains;
    SaysMeaning(payload.data, "managedKind", CLOUD_SYNC_KIND);
    ListsMeaning(payload.data, "selectedSkillIDs", CLOUD_SYNC_SKILL);
    var context := MetaObject(payload.data, "selectedSkillContext");
    if context.Present? { SaysMeaning(context.value, "managedKind", CLOUD_SYNC_KIND); }
  }

  // Any marker makes a payload Cloud Sync; a valid one has them all.
  lemma PayloadByMarkers(payload: Payload)
    ensures IsCloudSync(payload) <==> exists marker :: Carries(payload, marker)
    ensures ValidatePayload(payload).Admit? <==> IsProductPayload(payload)
  {
    hide TrimSpace, Carries, ListContains, ContextManaged;
    MarkersMeaning(payload);
    forall marker | Carries(payload, marker) ensures IsCloudSync(payload) { WhichMarker(marker); }
    if ValidatePayload(payload).Admit? {
      forall marker ensures Carries(payload, marker) { WhichMarker(marker); }
    }
  }

  lemma WhichMarker(marker: Marker)
    ensures marker == ManagedKind || marker == ProductSkill || marker == SkillContext
  {
  }

  // Which writes are admitted: the managed task's, of a product payload for the managed
  // agent, and every other task's whose payload has no marker at all.
  lemma WritesAdmittedExactly(task: Task)
    ensures CronPolicy(Write(task)).Admit? <==>
            if TrimSpace(task.id) == "task-openbrain-cloud-sync" then
              && TrimSpace(task.targetKind) == "agent" && TrimSpace(task.targetAgent) == "agent-coder"
              && IsProductPayload(task.payload)
            else forall marker :: !Carries(task.payload, marker)
  {
    hide TrimSpace, Carries, ValidatePayload, IsCloudSync, IsProductPayload;
    PayloadByMarkers(task.payload);
  }

  // Which runs are: the managed task's without an override or with a product payload, and
  // every other task's unless the override has a marker.
  lemma RunsAdmittedByMarkers(id: string, override: Maybe<Payload>)
    ensures CronPolicy(Run(id, override)).Admit? <==>
            || override.Absent?
            || (if TrimSpace(id) == "task-openbrain-cloud-sync" then IsProductPayload(override.value)
                else forall marker :: !Carries(override.value, marker))
  {
    hide TrimSpace, Carries, ValidatePayload, IsCloudSync, IsProductPayload;
    if override.Present? { PayloadByMarkers(override.value); }
  }

  // ---------- scoped GBrain tools ----------

  const SOURCE_ID := "source_id"

  // An object the tool call passes by reference.
  class ArgumentsObject {
    var fields: Fields

    constructor (fields: Fields)
      ensures this.fields == fields
    {
      this.fields := fields;
    }
  }

  datatype Params = Arguments(held: ArgumentsObject) | NotAnObject

  predicate IsScopedTool(serverID: string, toolName: string, schema: Value, arguments: Maybe<Fields>) {
    && Contains(ToLower(TrimSpace(serverID)), "gbrain-cloud")
    && (|| ToLower(TrimSpace(toolName)) == "query"
        || ToLower(TrimSpace(toolName)) == "search"
        || (schema.Object? && MetaObject(schema.fields, "properties").Present?
            && SOURCE_ID in MetaObject(schema.fields, "properties").value)
        || (arguments.Present? && SOURCE_ID in arguments.value))
  }

  // The calls a source scope is for: a gbrain-cloud server's query or search tool, in any
  // letter case, a tool whose schema has the source, or a call that names one.
  predicate IsScopable(serverID: string, toolName: string, schema: Value, arguments: Maybe<Fields>) {
    && Mentions(TrimSpace(serverID), "gbrain-cloud")
    && (|| Spells(TrimSpace(toolName), "query")
        || Spells(TrimSpace(toolName), "search")
        || (schema.Object? && "properties" in schema.fields && schema.fields["properties"].Object?
            && "source_id" in schema.fields["properties"].fields)
        || (arguments.Present? && "source_id" in arguments.value))
  }

  lemma ScopableExactly(serverID: string, toolName: string, schema: Value, arguments: Maybe<Fields>)
    ensures IsScopedTool(serverID, toolName, schema, arguments) <==>
            IsScopable(serverID, toolName, schema, arguments)
  {
    hide TrimSpace, ToLower, Contains, Mentions, Spells;
    ToolMarks();
    LowerMentions(TrimSpace(serverID), "gbrain-cloud");
    LowerSpells(TrimSpace(toolName), "query");
    LowerSpells(TrimSpace(toolName), "search");
  }

  lemma ToolMarks()
    ensures IsMark("gbrain-cloud") && IsMark("query") && IsMark("search")
  {
  }

  // The allowed source of a source scope; NoScope when the turn has none.
  datatype Scope = NoScope | SourceScope(source: string)

  function ScopeOf(meta: Fields): Scope {
    var scope := MetaObject(meta, "gbrainQueryScope");
    if scope.Absent? || TrimSpace(MetaString(scope.value, "kind")) != "source" then NoScope
    else SourceScope(TrimSpace(MetaString(scope.value, "sourceID")))
  }

  function Requested(arguments: Fields): string {
    TrimSpace(MetaString(arguments, SOURCE_ID))
  }

  datatype Scoping = Unchanged | Rewritten(fields: Fields) | Refused

  // What becomes of the arguments of a source-scoped call under a source scope.
  function ScopeArguments(source: string, arguments: Maybe<Fields>): Scoping {
    if source == "" || arguments.Absent? then Refused
    else if Requested(arguments.value) == source then Unchanged
    else if Requested(arguments.value) != "" then Refused
    else Rewritten(arguments.value[SOURCE_ID := Str(source)])
  }

  function ToolScope(meta: Fields, serverID: string, toolName: string, schema: Value,
      arguments: Maybe<Fields>): Scoping {
    if !IsScopedTool(serverID, toolName, schema, arguments) then Unchanged
    else if ScopeOf(meta).NoScope? then Unchanged
    else ScopeArguments(ScopeOf(meta).source, arguments)
  }

  function ReadParams(params: Params): Maybe<Fields>
    reads if params.Arguments? then {params.held} else {}
  {
    if params.Arguments? then Present(params.held.fields) else Absent
  }

  // gbrainToolScope: nothing reachable before the call is written; a rewritten call gets
  // a new arguments object.
  method GbrainToolScope(meta: Fields, serverID: string, toolName: string, schema: Value, params: Params)
    returns (ok: bool, next: Params)
    ensures ok <==> !ToolScope(meta, serverID, toolName, schema, ReadParams(params)).Refused?
    ensures !ToolScope(meta, serverID, toolName, schema, ReadParams(params)).Rewritten? ==> next == params
    ensures ToolScope(meta, serverID, toolName, schema, ReadParams(params)).Rewritten? ==>
              && next.Arguments? && fresh(next.held)
              && next.held.fields == ToolScope(meta, serverID, toolName, schema, ReadParams(params)).fields
  {
    hide TrimSpace, IsScopedTool;
    ok, next := true, params;
    if !IsScopedTool(serverID, toolName, schema, ReadParams(params)) {
      return;
    }
    var scope := ScopeOf(meta);
    if scope.NoScope? {
      return;
    }
    if scope.source == "" || params.NotAnObject? {
      return false, params;
    }
    var arguments := params.held.fields;
    var requested := Requested(arguments);
    if requested != "" && requested != scope.source {
      return false, params;
    }
    if requested == scope.source {
      return;
    }
    var copy: Fields := map[];
    var todo := arguments.Keys;
    while todo != {}
      invariant todo <= arguments.Keys
      invariant copy == map key | key in arguments && key !in todo :: arguments[key]
      decreases todo
    {
      var key :| key in todo;
      todo := todo - {key};
      copy := copy[key := arguments[key]];
    }
    copy := copy[SOURCE_ID := Str(scope.source)];
    var held := new ArgumentsObject(copy);
    return true, Arguments(held);
  }

  // The arguments a scoped call goes ahead with.
  function Outcome(scoping: Scoping, arguments: Fields): Fields {
    if scoping.Rewritten? then scoping.fields else arguments
  }

  // The turn has a source scope, and this is its source.
  predicate HasScope(meta: Fields, source: string) {
    && "gbrainQueryScope" in meta && meta["gbrainQueryScope"].Object?
    && var scope := meta["gbrainQueryScope"].fields;
       && Says(scope, "kind", "source")
       && source == if "sourceID" in scope && scope["sourceID"].Str? then TrimSpace(scope["sourceID"].text) else ""
  }

  lemma ScopeMeaning(meta: Fields, source: string)
    ensures HasScope(meta, source) <==> ScopeOf(meta) == SourceScope(source)
  {
    hide TrimSpace, Says;
    EmptyTrimmed();
    var scope := MetaObject(meta, "gbrainQueryScope");
    if scope.Present? { SaysMeaning(scope.value, "kind", "source"); }
  }

  // A call that a source scope is for goes ahead only with arguments that ask for the
  // scope's source; a call that no source scope is for goes ahead as it is.
  lemma ScopeBinds(meta: Fields, serverID: string, toolName: string, schema: Value, arguments: Maybe<Fields>)
    ensures var scoping := ToolScope(meta, serverID, toolName, schema, arguments);
            && (forall source :: HasScope(meta, source) && IsScopable(serverID, toolName, schema, arguments) ==>
                  scoping.Refused? || (arguments.Present? && source != ""
                                       && Says(Outcome(scoping, arguments.value), "source_id", source)))
            && ((!exists source :: HasScope(meta, source)) || !IsScopable(serverID, toolName, schema, arguments) ==>
                  scoping.Unchanged?)
  {
    hide TrimSpace, IsScopedTool, IsScopable, HasScope, Says, ScopeOf;
    ScopableExactly(serverID, toolName, schema, arguments);
    forall source ensures HasScope(meta, source) <==> ScopeOf(meta) == SourceScope(source) {
      ScopeMeaning(meta, source);
    }
    if ScopeOf(meta).SourceScope? {
      var source := ScopeOf(meta).source;
      assert HasScope(meta, source);
      if IsScopable(serverID, toolName, schema, arguments) && arguments.Present? && source != "" {
        ScopeEnforced(meta, serverID, toolName, schema, arguments.value);
        var result := Outcome(ToolScope(meta, serverID, toolName, schema, arguments), arguments.value);
        SaysMeaning(result, "source_id", source);
      }
    }
  }

  // A scoped call under a source scope either fails or goes ahead with the allowed source
  // and every other argument as given.
  lemma ScopeEnforced(meta: Fields, serverID: string, toolName: string, schema: Value, arguments: Fields)
    requires IsScopable(serverID, toolName, schema, Present(arguments))
    requires ScopeOf(meta).SourceScope?
    ensures var scoping := ToolScope(meta, serverID, toolName, schema, Present(arguments));
            var result := Outcome(scoping, arguments);
            !scoping.Refused? ==>
              && Requested(result) == ScopeOf(meta).source != ""
              && result.Keys - {SOURCE_ID} == arguments.Keys - {SOURCE_ID}
              && forall key :: key in arguments && key != SOURCE_ID ==> result[key] == arguments[key]
  {
    hide TrimSpace, IsScopedTool, IsScopable;
    ScopableExactly(serverID, toolName, schema, Present(arguments));
    ScopeSourceTrimmed(meta);
  }

  lemma ScopeSourceTrimmed(meta: Fields)
    requires ScopeOf(meta).SourceScope?
    ensures TrimSpace(ScopeOf(meta).source) == ScopeOf(meta).source
  {
    hide TrimSpace;
    TrimSpaceIdempotent(MetaString(MetaObject(meta, "gbrainQueryScope").value, "sourceID"));
  }

  // Exactly which scoped calls are refused under a source scope.
  lemma ScopeRefusesExactly(meta: Fields, serverID: string, toolName: string, schema: Value, arguments: Maybe<Fields>)
    requires IsScopedTool(serverID, toolName, schema, arguments) && ScopeOf(meta).SourceScope?
    ensures ToolScope(meta, serverID, toolName, schema, arguments).Refused? <==>
            || ScopeOf(meta).source == ""
            || arguments.Absent?
            || Requested(arguments.value) !in {"", ScopeOf(meta).source}
  {
    hide TrimSpace, IsScopedTool;
  }

  // Arguments that differ from the given ones in the source alone, ask for the allowed
  // source, and do not overrule a source that was asked for.
  predicate Honours(source: string, arguments: Fields, result: Fields) {
    && source != "" && Requested(result) == source
    && (Requested(arguments) != "" ==> Requested(result) == Requested(arguments))
    && result.Keys - {SOURCE_ID} == arguments.Keys - {SOURCE_ID}
    && forall key :: key in arguments && key != SOURCE_ID ==> key in result && result[key] == arguments[key]
  }

  // A scoped call is refused only where no such arguments exist, and otherwise goes ahead
  // with such arguments.
  lemma ScopeRefusesOnlyTheImpossible(meta: Fields, serverID: string, toolName: string, schema: Value,
      arguments: Fields)
    requires IsScopable(serverID, toolName, schema, Present(arguments)) && ScopeOf(meta).SourceScope?
    ensures var scoping := ToolScope(meta, serverID, toolName, schema, Present(arguments));
            && (scoping.Refused? <==> !exists result :: Honours(ScopeOf(meta).source, arguments, result))
            && (!scoping.Refused? ==> Honours(ScopeOf(meta).source, arguments, Outcome(scoping, arguments)))
  {
    hide TrimSpace, IsScopedTool, IsScopable, Requested, ToolScope, ScopeOf;
    ScopableExactly(serverID, toolName, schema, Present(arguments));
    var scoping := ToolScope(meta, serverID, toolName, schema, Present(arguments));
    ScopeRefusesExactly(meta, serverID, toolName, schema, Present(arguments));
    if scoping.Refused? {
    } else {
      ScopeEnforced(meta, serverID, toolName, schema, arguments);
      var result := Outcome(scoping, arguments);
      forall key | key in arguments && key != SOURCE_ID ensures key in result {
        assert key in arguments.Keys - {SOURCE_ID};
      }
      assert Honours(ScopeOf(meta).source, arguments, result);
    }
  }

  // The call that goes ahead is still classified as scoped, and scoping it again changes
  // nothing.
  lemma ScopeIdempotent(meta: Fields, serverID: string, toolName: string, schema: Value, arguments: Fields)
    ensures var scoping := ToolScope(meta, serverID, toolName, schema, Present(arguments));
            var result := Outcome(scoping, arguments);
            !scoping.Refused? ==>
              && (IsScopable(serverID, toolName, schema, Present(arguments)) ==>
                    IsScopable(serverID, toolName, schema, Present(result)))
              && ToolScope(meta, serverID, toolName, schema, Present(result)).Unchanged?
  {
    hide TrimSpace, Mentions, Spells;
    var result := Outcome(ToolScope(meta, serverID, toolName, schema, Present(arguments)), arguments);
    ScopableExactly(serverID, toolName, schema, Present(arguments));
    ScopableExactly(serverID, toolName, schema, Present(result));
    if ScopeOf(meta).SourceScope? {
      ScopeSourceTrimmed(meta);
    }
  }
}
