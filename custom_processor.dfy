/** Appending the "@custom" hook step to a pipeline definition before installation.

    The definition arrives parsed (the YAML or JSON parser is not part of this model):
    a top-level object whose `processors` member is the ordered list of steps. The hook
    is one more step, `pipeline: {name: <custom pipeline>, ignore_missing_pipeline: true}`,
    placed after all the others. JSON content is then serialised compactly; YAML content is
    dumped after a `---` document marker, and that block dump is kept here as the
    document it writes out. */
module CustomPipelineProcessor {
  import opened Wrappers
  import opened JsonValue

  datatype Extension = Yml | Json

  /** The record handed to the installer: content, its format, and the two names. */
  datatype PipelineInstall = PipelineInstall(
    contentForInstallation: Value,
    extension: Extension,
    nameForInstallation: string,
    customIngestPipelineNameForInstallation: string)

  /** The content ready for installation, in the format it came in. */
  datatype InstallContent =
    | JsonText(text: string)
    | YamlDocument(doc: Value)

  /** The parsed content has no `processors` list to append to. */
  datatype HookError = MissingProcessorList

  const ProcessorsKey: string := "processors"

  /** The hook step that delegates to the custom pipeline, tolerating its absence. */
  function CustomPipelineStep(customName: string): (r: Value)
    ensures CalledPipeline(r) == Some((customName, true))
  {
    var args := [Member("name", Str(customName)), Member("ignore_missing_pipeline", Bool(true))];
    assert Lookup(args, "name") == Some(Str(customName));
    assert args[1..] == [args[1]] && Lookup(args, "ignore_missing_pipeline") == Some(Bool(true)) by {
      assert args[0].key != "ignore_missing_pipeline" && FindKey(args[1..], "ignore_missing_pipeline") == Some(0);
    }
    assert Lookup([Member("pipeline", Obj(args))], "pipeline") == Some(Obj(args));
    Obj([Member("pipeline", Obj(args))])
  }

  /** What a `pipeline` step does: the pipeline it calls, and whether a missing pipeline is
      skipped (`ignore_missing_pipeline`, false when not given). None for any other step. */
  function CalledPipeline(step: Value): Option<(string, bool)>
  {
    match step
    case Obj(members) =>
      (match Lookup(members, "pipeline")
       case Some(Obj(args)) =>
         (match (Lookup(args, "name"), Lookup(args, "ignore_missing_pipeline"))
          case (Some(Str(name)), Some(Bool(ignore))) => Some((name, ignore))
          case (Some(Str(name)), None) => Some((name, false))
          case _ => None)
       case _ => None)
    case _ => None
  }

  /** The processor list of a parsed definition: the first `processors` member of the
      top-level object, when that member is an array. */
  function Processors(doc: Value): (r: Option<seq<Value>>)
    ensures r.Some? ==> doc.Obj? && exists k :: (0 <= k < |doc.members| &&
                                                 doc.members[k] == Member(ProcessorsKey, Arr(r.value)) &&
                                                 forall j :: 0 <= j < k ==> doc.members[j].key != ProcessorsKey)
    ensures doc.Obj? && (forall k :: 0 <= k < |doc.members| ==> doc.members[k].key != ProcessorsKey) ==> r.None?
    ensures doc.Obj? ==> forall k ::
      (0 <= k < |doc.members| && doc.members[k].key == ProcessorsKey &&
       (forall j :: 0 <= j < k ==> doc.members[j].key != ProcessorsKey)) ==>
      (r.Some? <==> doc.members[k].value.Arr?)
  {
    match doc
    case Obj(members) =>
      (match FindKey(members, ProcessorsKey)
       case Some(i) => if members[i].value.Arr? then Some(members[i].value.items) else None
       case None => None)
    case _ => None
  }

  /** The definition with the hook step pushed onto its processor list. Every other
      member of the object keeps its key, value and place. */
  function AppendCustomStep(doc: Value, customName: string): (r: Result<Value, HookError>)
    ensures r.Ok? <==> Processors(doc).Some?
    ensures r.Ok? ==> Processors(r.value) == Some(Processors(doc).value + [CustomPipelineStep(customName)])
    ensures r.Ok? ==> doc.Obj? && r.value.Obj? && |r.value.members| == |doc.members|
    ensures r.Ok? ==> FindKey(doc.members, ProcessorsKey).Some? && forall k :: 0 <= k < |doc.members| ==>
      r.value.members[k].key == doc.members[k].key &&
      (k != FindKey(doc.members, ProcessorsKey).value ==> r.value.members[k] == doc.members[k])
  {
    match doc
    case Obj(members) =>
      (match FindKey(members, ProcessorsKey)
       case Some(i) =>
         if members[i].value.Arr? then
           var steps := members[i].value.items + [CustomPipelineStep(customName)];
           var updated := members[i := Member(ProcessorsKey, Arr(steps))];
           assert FindKey(updated, ProcessorsKey) == Some(i) by {
             FindKeyAfterUpdate(members, ProcessorsKey, i, Member(ProcessorsKey, Arr(steps)));
           }
           Ok(Obj(updated))
         else Err(MissingProcessorList)
       case None => Err(MissingProcessorList))
    case _ => Err(MissingProcessorList)
  }

  /** Replacing the first member named `key` by another member named `key` keeps it first. */
  lemma {:induction false} FindKeyAfterUpdate(members: seq<Member>, key: string, i: nat, m: Member)
    requires FindKey(members, key) == Some(i) && m.key == key
    ensures FindKey(members[i := m], key) == Some(i)
  {
    if i > 0 {
      assert members[i := m][1..] == members[1..][i - 1 := m];
      FindKeyAfterUpdate(members[1..], key, i - 1, m);
    }
  }

  /** addCustomPipelineProcessor: the content with the hook appended, in its own format. */
  function AddCustomPipelineProcessor(pipeline: PipelineInstall): (r: Result<InstallContent, HookError>)
    ensures r.Ok? <==> Processors(pipeline.contentForInstallation).Some?
    ensures r.Ok? ==>
      var doc := AppendCustomStep(pipeline.contentForInstallation,
                                  pipeline.customIngestPipelineNameForInstallation).value;
      r.value == if pipeline.extension == Yml then YamlDocument(doc) else JsonText(Compact(doc))
  {
    match AppendCustomStep(pipeline.contentForInstallation, pipeline.customIngestPipelineNameForInstallation)
    case Err(e) => Err(e)
    case Ok(doc) =>
      if pipeline.extension == Yml then Ok(YamlDocument(doc)) else Ok(JsonText(Compact(doc)))
  }

  /** The installed name of the pipeline itself plays no part in the content. */
  lemma NameForInstallationIgnored(pipeline: PipelineInstall, otherName: string)
    ensures AddCustomPipelineProcessor(pipeline.(nameForInstallation := otherName))
         == AddCustomPipelineProcessor(pipeline)
  {
  }

  /** Both formats append the same step list: the YAML document and the document whose
      JSON text is produced are one and the same. */
  lemma FormatsAgree(pipeline: PipelineInstall)
    requires Processors(pipeline.contentForInstallation).Some?
    ensures exists doc: Value ::
      AddCustomPipelineProcessor(pipeline.(extension := Yml)) == Ok(YamlDocument(doc)) &&
      AddCustomPipelineProcessor(pipeline.(extension := Json)) == Ok(JsonText(Compact(doc))) &&
      Processors(doc) == Some(Processors(pipeline.contentForInstallation).value
                              + [CustomPipelineStep(pipeline.customIngestPipelineNameForInstallation)])
  {
    var doc := AppendCustomStep(pipeline.contentForInstallation,
                                pipeline.customIngestPipelineNameForInstallation).value;
    assert AddCustomPipelineProcessor(pipeline.(extension := Yml)) == Ok(YamlDocument(doc));
  }

  /** The member `"key":<text>` for a key that needs no escaping. */
  lemma PlainMemberText(key: string, value: Value)
    requires Plain(key)
    ensures CompactMember(Member(key, value)) == "\"" + key + "\":" + Compact(value)
  {
    QuotePlain(key);
    assert "\"" + key + "\"" + ":" == "\"" + key + "\":";
  }

  /** The hook's keys need no escaping; kept apart from the serialisation facts that use it. */
  lemma PlainHookKeys()
    ensures Plain("pipeline") && Plain("name") && Plain("ignore_missing_pipeline")
  {
  }

  lemma HookNameMemberText(customName: string)
    ensures CompactMember(Member("name", Str(customName))) == "\"name\":" + Quote(customName)
  {
    PlainHookKeys();
    PlainMemberText("name", Str(customName));
  }

  lemma HookIgnoreMemberText()
    ensures CompactMember(Member("ignore_missing_pipeline", Bool(true))) == "\"ignore_missing_pipeline\":true"
  {
    PlainHookKeys();
    PlainMemberText("ignore_missing_pipeline", Bool(true));
    assert Compact(Bool(true)) == "true";
    IgnoreMemberLiteral();
  }

  /** Regrouping of string literals, kept apart from the serialisation facts that use it. */
  lemma IgnoreMemberLiteral()
    ensures "\"" + "ignore_missing_pipeline" + "\":" + "true" == "\"ignore_missing_pipeline\":true"
  {
  }

  /** The compact text of the hook step's arguments. */
  lemma CompactHookArguments(customName: string)
    ensures Compact(Obj([Member("name", Str(customName)), Member("ignore_missing_pipeline", Bool(true))]))
         == "{\"name\":" + Quote(customName) + ",\"ignore_missing_pipeline\":true}"
  {
    CompactTwoMembers(Member("name", Str(customName)), Member("ignore_missing_pipeline", Bool(true)));
    HookNameMemberText(customName);
    HookIgnoreMemberText();
    HookArgumentsText(Quote(customName));
  }

  /** Regrouping of string literals, kept apart from the serialisation facts that use it. */
  lemma HookArgumentsText(q: string)
    ensures "{" + ("\"name\":" + q) + "," + "\"ignore_missing_pipeline\":true" + "}"
         == "{\"name\":" + q + ",\"ignore_missing_pipeline\":true}"
  {
    assert "{" + "\"name\":" == "{\"name\":";
    assert "," + "\"ignore_missing_pipeline\":true" + "}" == ",\"ignore_missing_pipeline\":true}";
  }

  /** The compact text of the hook step. */
  lemma CompactCustomPipelineStep(customName: string)
    ensures Compact(CustomPipelineStep(customName))
         == "{\"pipeline\":{\"name\":" + Quote(customName) + ",\"ignore_missing_pipeline\":true}}"
  {
    var args := Obj([Member("name", Str(customName)), Member("ignore_missing_pipeline", Bool(true))]);
    PlainHookKeys();
    PlainMemberText("pipeline", args);
    CompactOneMember(Member("pipeline", args));
    CompactHookArguments(customName);
    HookStepText(Quote(customName));
  }

  /** Regrouping of string literals, kept apart from the serialisation facts that use it. */
  lemma HookStepText(q: string)
    ensures "{" + ("\"pipeline\":" + ("{\"name\":" + q + ",\"ignore_missing_pipeline\":true}")) + "}"
         == "{\"pipeline\":{\"name\":" + q + ",\"ignore_missing_pipeline\":true}}"
  {
    assert "{" + "\"pipeline\":" + "{\"name\":" == "{\"pipeline\":{\"name\":";
    assert ",\"ignore_missing_pipeline\":true}" + "}" == ",\"ignore_missing_pipeline\":true}}";
  }

  /** On a definition made only of a processor list, the hook lands at its end. */
  lemma AppendToSoleProcessorList(steps: seq<Value>, customName: string)
    ensures AppendCustomStep(Obj([Member(ProcessorsKey, Arr(steps))]), customName)
         == Ok(Obj([Member(ProcessorsKey, Arr(steps + [CustomPipelineStep(customName)]))]))
  {
    var members := [Member(ProcessorsKey, Arr(steps))];
    assert FindKey(members, ProcessorsKey) == Some(0);
    assert members[0 := Member(ProcessorsKey, Arr(steps + [CustomPipelineStep(customName)]))]
        == [Member(ProcessorsKey, Arr(steps + [CustomPipelineStep(customName)]))];
  }

  /** The compact text of a definition made only of a processor list. */
  lemma CompactSoleProcessorList(steps: seq<Value>)
    ensures Compact(Obj([Member(ProcessorsKey, Arr(steps))])) == "{\"processors\":[" + CompactItems(steps) + "]}"
  {
    assert Plain(ProcessorsKey);
    PlainMemberText(ProcessorsKey, Arr(steps));
    CompactOneMember(Member(ProcessorsKey, Arr(steps)));
    var items := CompactItems(steps);
    assert Compact(Arr(steps)) == "[" + items + "]";
    ProcessorListText(items);
  }

  /** Regrouping of string literals, kept apart from the serialisation facts that use it. */
  lemma ProcessorListText(items: string)
    ensures "{" + ("\"processors\":" + ("[" + items + "]")) + "}" == "{\"processors\":[" + items + "]}"
  {
    assert "{" + "\"processors\":" + "[" == "{\"processors\":[";
  }

  /** The compact text of a definition made only of a non-empty processor list: the
      original steps' text, then a comma and the hook step's text, inside the list. */
  lemma JsonTextLayout(steps: seq<Value>, nameForInstallation: string, customName: string)
    requires steps != []
    ensures AddCustomPipelineProcessor(PipelineInstall(Obj([Member(ProcessorsKey, Arr(steps))]),
                                                       Json, nameForInstallation, customName))
         == Ok(JsonText("{\"processors\":[" + CompactItems(steps) + "," + Compact(CustomPipelineStep(customName)) + "]}"))
  {
    AppendToSoleProcessorList(steps, customName);
    SoleProcessorListAppendText(steps, CustomPipelineStep(customName));
  }

  /** The compact text of a sole non-empty processor list with one more step at its end. */
  lemma SoleProcessorListAppendText(steps: seq<Value>, last: Value)
    requires steps != []
    ensures Compact(Obj([Member(ProcessorsKey, Arr(steps + [last]))]))
         == "{\"processors\":[" + CompactItems(steps) + "," + Compact(last) + "]}"
  {
    CompactSoleProcessorList(steps + [last]);
    CompactItemsAppend(steps, last);
    var items, h := CompactItems(steps), Compact(last);
    assert "{\"processors\":[" + (items + "," + h) + "]}" == "{\"processors\":[" + items + "," + h + "]}";
  }

  /** The `set` step of the two hook tests. */
  function SetTestStep(): Value
  {
    Obj([Member("set", Obj([Member("field", Str("test")), Member("value", Str("toto"))]))])
  }

  /** The YAML hook test: the dumped document lists the `set` step, then the hook step. */
  lemma YamlHookExample()
    ensures AddCustomPipelineProcessor(PipelineInstall(Obj([Member("processors", Arr([SetTestStep()]))]),
                                                       Yml, "logs-test-1.0.0", "logs-test@custom"))
         == Ok(YamlDocument(Obj([Member("processors", Arr([SetTestStep(), CustomPipelineStep("logs-test@custom")]))])))
  {
    AppendToSoleProcessorList([SetTestStep()], "logs-test@custom");
    assert [SetTestStep()] + [CustomPipelineStep("logs-test@custom")]
        == [SetTestStep(), CustomPipelineStep("logs-test@custom")];
  }
}
