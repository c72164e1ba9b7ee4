# Fleet ingest-pipeline helpers, modelled in Dafny

This project models the helper API Fleet uses when it installs the ingest pipelines of an
integration package into Elasticsearch, as the behaviour is pinned down by
`helpers.test.ts`:

- `getPipelineNameForInstallation` names an installed pipeline. The data stream's entry
  pipeline becomes `type-dataset-version`. Any other pipeline of the stream becomes
  `type-dataset-version-pipelineName`. (module `PipelineNames`)
- `getCustomPipelineNameForDatastream` names the user-editable hook pipeline
  `type-dataset@custom`. (module `PipelineNames`)
- `rewriteIngestPipeline` rewrites references between the pipelines of a package, written
  in a standard or a beats template style, to the installed names. It applies a list of
  `{source, target, templateFunction}` substitutions in order. (module `IngestPipelineRewrite`)
- `addCustomPipelineProcessor` appends a `pipeline` step that calls the `@custom` pipeline,
  with `ignore_missing_pipeline: true`, to the end of the `processors` list. It then
  serialises the pipeline again as YAML or as compact JSON. (module `CustomPipelineProcessor`)

## How the model is built

- The pipeline text given to `rewriteIngestPipeline` is a sequence of segments: plain `Text`
  and template references `Ref(style, templateFunction, name)`. The references are exactly
  the `Ref` segments; `Text` is never scanned. `Render` prints a segment sequence back as
  text. The written forms `{{IngestPipeline 'name'}}` (standard) and
  `{<IngestPipeline 'name'>}` (beats) are a modelling choice; the fixture texts that hold
  the real spellings are not shown.
- A reference that matches a substitution is replaced as a whole by the target name. The
  tests expect byte-identical output from the standard and the beats inputs, which rules
  out a rewritten reference keeping its own delimiters. Replacing the whole reference by
  the target name is the reading chosen here; writing every rewritten reference in one
  fixed style would satisfy the tests equally, since the expected fixture output is not
  shown.
- Every matching occurrence is replaced, not only the first one per substitution; this too
  is a modelling choice. A segment the first matching substitution has rewritten is plain
  text, so later substitutions do not see it again.
- The rewrite is a left fold over the substitution list (`RewriteIngestPipeline`). Its
  contract states it equal, segment by segment, to a first-match reference definition
  (`Resolve`). The no-op, idempotence, swap and style-independence laws are proved from
  that; splitting the list (`RewriteFold`) is a separate induction over the fold.
- The pipeline document given to `addCustomPipelineProcessor` is the parsed value (module
  `JsonValue`), not the text the YAML or JSON parser reads.
  - For the `json` extension, the result is the exact compact text, which `Compact` defines
    (no whitespace, members in document order, standard string escapes).
  - For the `yml` extension, the result is the updated document that the YAML dumper would
    print.
  - A document without a `processors` array yields `Err(MissingProcessorList)`. This is a
    modelling choice: what the implementation does in that case is not shown.
- The fixture lemmas restate the test expectations as facts about the model: the coredns
  names, `logs-test@custom`, the two-style fixture and the YAML hook example.

## Model

| member | source | states |
|---|---|---|
| PipelineNames.PipelineNameForInstallation | x-pack/plugins/fleet/server/services/epm/elasticsearch/ingest_pipeline/helpers.test.ts:128-143 | the entry pipeline is installed as `type-dataset-version`; any other pipeline name as `type-dataset-version-pipelineName` |
| PipelineNames.InstallationNameInjective | x-pack/plugins/fleet/server/services/epm/elasticsearch/ingest_pipeline/helpers.test.ts:128-143 | two pipelines of one data stream and version never share an installed name |
| PipelineNames.EntryNamePrefixesReferencedNames | x-pack/plugins/fleet/server/services/epm/elasticsearch/ingest_pipeline/helpers.test.ts:138-143 | the installed name of a referenced pipeline is the entry pipeline's installed name followed by `-` and the pipeline name |
| PipelineNames.CorednsInstallationNames | x-pack/plugins/fleet/server/services/epm/elasticsearch/ingest_pipeline/helpers.test.ts:116-144 | the coredns.log stream at version 1.0.1 installs `pipeline-entry` as `logs-coredns.log-1.0.1` and `pipeline-json` as `logs-coredns.log-1.0.1-pipeline-json` |
| PipelineNames.CustomPipelineNameForDatastream | x-pack/plugins/fleet/server/services/epm/elasticsearch/ingest_pipeline/helpers.test.ts:196-204 | the custom pipeline name is `type-dataset` followed by `@custom`, and its length is exactly that |
| PipelineNames.CustomNameNeverInstallationName | x-pack/plugins/fleet/server/services/epm/elasticsearch/ingest_pipeline/helpers.test.ts:138-143 | the custom pipeline name of a stream differs from every installed pipeline name of that stream |
| PipelineNames.LogsTestCustomName | x-pack/plugins/fleet/server/services/epm/elasticsearch/ingest_pipeline/helpers.test.ts:196-205 | the stream `{type: logs, dataset: test}` gets the custom pipeline `logs-test@custom` |
| IngestPipelineRewrite.ApplySubstitution | x-pack/plugins/fleet/server/services/epm/elasticsearch/ingest_pipeline/helpers.test.ts:33-45 | one substitution keeps the segment count, turns every reference it matches into its target text and leaves every other segment as it was |
| IngestPipelineRewrite.RewriteIngestPipeline | x-pack/plugins/fleet/server/services/epm/elasticsearch/ingest_pipeline/helpers.test.ts:33-46 | the fold over the substitution list keeps the segment count and rewrites each segment on its own, to the target of the first substitution that matches it, or keeps it |
| IngestPipelineRewrite.ResolveText | x-pack/plugins/fleet/server/services/epm/elasticsearch/ingest_pipeline/helpers.test.ts:33-46 | plain text resolves to itself under any substitution list |
| IngestPipelineRewrite.ResolveFirstMatch | x-pack/plugins/fleet/server/services/epm/elasticsearch/ingest_pipeline/helpers.test.ts:33-44 | a reference is resolved to the target of the first matching substitution in the list |
| IngestPipelineRewrite.ResolveNoMatch | x-pack/plugins/fleet/server/services/epm/elasticsearch/ingest_pipeline/helpers.test.ts:76-93 | a segment no substitution matches resolves to itself |
| IngestPipelineRewrite.NoReferenceUnchanged | x-pack/plugins/fleet/server/services/epm/elasticsearch/ingest_pipeline/helpers.test.ts:76-114 | a document with no reference to any substitution source comes back exactly equal to the input |
| IngestPipelineRewrite.RewriteScoped | x-pack/plugins/fleet/server/services/epm/elasticsearch/ingest_pipeline/helpers.test.ts:33-46 | an unmatched segment is kept at its position; a matched one becomes the first matching target there |
| IngestPipelineRewrite.ResolveComplete | x-pack/plugins/fleet/server/services/epm/elasticsearch/ingest_pipeline/helpers.test.ts:33-46 | after resolution no substitution of the list matches the segment any more |
| IngestPipelineRewrite.ResolveIsSelfOrText | x-pack/plugins/fleet/server/services/epm/elasticsearch/ingest_pipeline/helpers.test.ts:33-46 | resolution either keeps a segment or yields plain text |
| IngestPipelineRewrite.RewriteResolvesAll | x-pack/plugins/fleet/server/services/epm/elasticsearch/ingest_pipeline/helpers.test.ts:33-46 | the rewritten document contains no reference that any of the substitutions matches |
| IngestPipelineRewrite.RewriteIdempotent | x-pack/plugins/fleet/server/services/epm/elasticsearch/ingest_pipeline/helpers.test.ts:33-46 | rewriting an already rewritten document with the same substitutions changes nothing |
| IngestPipelineRewrite.RewriteFold | x-pack/plugins/fleet/server/services/epm/elasticsearch/ingest_pipeline/helpers.test.ts:33-44 | rewriting with a concatenated list is rewriting with the first part, then with the second |
| IngestPipelineRewrite.RewriteSwapDistinct | x-pack/plugins/fleet/server/services/epm/elasticsearch/ingest_pipeline/helpers.test.ts:33-44 | two substitutions with different sources or template functions can be applied in either order |
| IngestPipelineRewrite.ResolveUpToStyle | x-pack/plugins/fleet/server/services/epm/elasticsearch/ingest_pipeline/helpers.test.ts:45-46 | two segments equal up to reference style resolve alike, and identically when a substitution matches |
| IngestPipelineRewrite.StyleIndependent | x-pack/plugins/fleet/server/services/epm/elasticsearch/ingest_pipeline/helpers.test.ts:45-46 | documents equal up to reference style rewrite to documents equal up to style, and to the same document when every reference they hold is substituted |
| IngestPipelineRewrite.Render | x-pack/plugins/fleet/server/services/epm/elasticsearch/ingest_pipeline/helpers.test.ts:45-46 | the written form of every segment, a reference's included, occurs in the text of the document |
| IngestPipelineRewrite.RenderConcat | x-pack/plugins/fleet/server/services/epm/elasticsearch/ingest_pipeline/helpers.test.ts:45-46 | the text of two segment sequences joined is their texts joined |
| IngestPipelineRewrite.RewriteSingleReference | x-pack/plugins/fleet/server/services/epm/elasticsearch/ingest_pipeline/helpers.test.ts:33-46 | in text with one matching reference, in either style, and no written form of such a reference in the text around it, the reference's text is replaced by the target and the text around it is kept |
| IngestPipelineRewrite.RenderDiffersByStyle | x-pack/plugins/fleet/server/services/epm/elasticsearch/ingest_pipeline/helpers.test.ts:21-28 | a reference written in the standard style and the beats style gives different text |
| IngestPipelineRewrite.FixtureStylesDiffer | x-pack/plugins/fleet/server/services/epm/elasticsearch/ingest_pipeline/helpers.test.ts:21-28 | the standard and beats inputs referring to `pipeline-json` and `pipeline-plaintext` are different texts |
| IngestPipelineRewrite.FixtureStylesRewriteAlike | x-pack/plugins/fleet/server/services/epm/elasticsearch/ingest_pipeline/helpers.test.ts:33-46 | those two inputs rewrite to the same output under the test's two substitutions |
| JsonValue.EscapeChar | x-pack/plugins/fleet/server/services/epm/elasticsearch/ingest_pipeline/helpers.test.ts:190-192 | a character is written as itself exactly when it is not a quote, a backslash or a control character |
| JsonValue.EscapePlain | x-pack/plugins/fleet/server/services/epm/elasticsearch/ingest_pipeline/helpers.test.ts:190-192 | a string with nothing to escape is written unchanged |
| JsonValue.QuotePlain | x-pack/plugins/fleet/server/services/epm/elasticsearch/ingest_pipeline/helpers.test.ts:190-192 | such a string is written between two double quotes |
| JsonValue.Digits | x-pack/plugins/fleet/server/services/epm/elasticsearch/ingest_pipeline/helpers.test.ts:190-192 | a number is written as decimal digits whose value, read left to right, is the number, with no leading zero |
| JsonValue.Compact | x-pack/plugins/fleet/server/services/epm/elasticsearch/ingest_pipeline/helpers.test.ts:190-192 | the compact text of a value is non-empty; its first character tells an object, an array, a string and a number apart, and an object or array text ends with its closing bracket |
| JsonValue.CompactItemsAppend | x-pack/plugins/fleet/server/services/epm/elasticsearch/ingest_pipeline/helpers.test.ts:190-192 | appending an element to a non-empty array appends a comma and the element's compact text |
| JsonValue.CompactOneMember | x-pack/plugins/fleet/server/services/epm/elasticsearch/ingest_pipeline/helpers.test.ts:190-192 | an object with one member is that member between braces |
| JsonValue.CompactTwoMembers | x-pack/plugins/fleet/server/services/epm/elasticsearch/ingest_pipeline/helpers.test.ts:190-192 | an object with two members is those members, comma separated, between braces |
| JsonValue.Lookup | x-pack/plugins/fleet/server/services/epm/elasticsearch/ingest_pipeline/helpers.test.ts:149-154 | a value is found exactly when some member holds the key, and it is the value of the first member that holds the key |
| JsonValue.FindKey | x-pack/plugins/fleet/server/services/epm/elasticsearch/ingest_pipeline/helpers.test.ts:149-154 | the index found holds the key and no earlier member does; none is found only when no member holds it |
| CustomPipelineProcessor.CustomPipelineStep | x-pack/plugins/fleet/server/services/epm/elasticsearch/ingest_pipeline/helpers.test.ts:166-168 | the hook step calls the custom pipeline by name and skips it when it is missing |
| CustomPipelineProcessor.Processors | x-pack/plugins/fleet/server/services/epm/elasticsearch/ingest_pipeline/helpers.test.ts:149-154 | a processor list found is the array of the first `processors` member; none is found without a `processors` member, and the first `processors` member gives a list exactly when it is an array |
| CustomPipelineProcessor.AppendCustomStep | x-pack/plugins/fleet/server/services/epm/elasticsearch/ingest_pipeline/helpers.test.ts:146-193 | it succeeds exactly when the document has a `processors` array; that list becomes the old steps followed by the hook step; every key is kept, and every member other than the first `processors` member is kept unchanged |
| CustomPipelineProcessor.FindKeyAfterUpdate | x-pack/plugins/fleet/server/services/epm/elasticsearch/ingest_pipeline/helpers.test.ts:146-193 | a member replaced in place with the same key is still the first with that key |
| CustomPipelineProcessor.AddCustomPipelineProcessor | x-pack/plugins/fleet/server/services/epm/elasticsearch/ingest_pipeline/helpers.test.ts:146-193 | it succeeds exactly when there is a `processors` array; `yml` yields the updated document, `json` its compact text |
| CustomPipelineProcessor.NameForInstallationIgnored | x-pack/plugins/fleet/server/services/epm/elasticsearch/ingest_pipeline/helpers.test.ts:155-157 | the result does not depend on `nameForInstallation` |
| CustomPipelineProcessor.FormatsAgree | x-pack/plugins/fleet/server/services/epm/elasticsearch/ingest_pipeline/helpers.test.ts:147-193 | the JSON output is the compact text of the very document the YAML output holds |
| CustomPipelineProcessor.PlainMemberText | x-pack/plugins/fleet/server/services/epm/elasticsearch/ingest_pipeline/helpers.test.ts:191 | a member whose key needs no escaping is written `"key":value` |
| CustomPipelineProcessor.CompactCustomPipelineStep | x-pack/plugins/fleet/server/services/epm/elasticsearch/ingest_pipeline/helpers.test.ts:191 | the hook step is written `{"pipeline":{"name":<quoted custom name>,"ignore_missing_pipeline":true}}` |
| CustomPipelineProcessor.AppendToSoleProcessorList | x-pack/plugins/fleet/server/services/epm/elasticsearch/ingest_pipeline/helpers.test.ts:146-193 | a document that holds only a `processors` list becomes that list with the hook step appended |
| CustomPipelineProcessor.CompactSoleProcessorList | x-pack/plugins/fleet/server/services/epm/elasticsearch/ingest_pipeline/helpers.test.ts:191 | such a document is written `{"processors":[` ... `]}` around its steps |
| CustomPipelineProcessor.SoleProcessorListAppendText | x-pack/plugins/fleet/server/services/epm/elasticsearch/ingest_pipeline/helpers.test.ts:191 | a sole non-empty processor list with one more step is written as the old steps' text, a comma and the new step's text inside `{"processors":[` ... `]}` |
| CustomPipelineProcessor.JsonTextLayout | x-pack/plugins/fleet/server/services/epm/elasticsearch/ingest_pipeline/helpers.test.ts:173-193 | for `json`, the output is `{"processors":[`, the old steps, a comma, the hook step's text and `]}` |
| CustomPipelineProcessor.YamlHookExample | x-pack/plugins/fleet/server/services/epm/elasticsearch/ingest_pipeline/helpers.test.ts:147-170 | the YAML example yields the `set` step followed by the hook step calling `logs-test@custom` |

## Left out

- The implementation file `helpers.ts` is not part of this model. The model follows what `helpers.test.ts` asserts.
- Reading the fixture files from disk (`readFileSync`, `path.join`) is left out, and so are their contents, which are not shown. The two-style fixture is a short document of the same shape.
- The YAML and JSON parsers are left out; the model starts from the parsed document. The YAML dumper's text (the `---` marker, the two-space indentation, unquoted scalars) is left out too; the `yml` result is the document that would be dumped.
- Format sniffing (JSON when the trimmed text starts with `{` or `[`) is left out; the `extension` tag chooses the format.
- IngestPipelineRewrite.Render: the whitespace and quote variants a reference may be written with (`"` or `'`, spaces inside the braces) are collapsed into one spelling per style.
- IngestPipelineRewrite.RewriteIngestPipeline: references are exactly the `Ref` segments and `Text` is never scanned, so reference text hidden inside a `Text` segment (which `Render` writes the same as a `Ref`) is not rewritten, whereas a rewrite working on the text itself would rewrite it. A target is never re-scanned, because rewritten references are plain text segments. A later substitution whose source equals an earlier target does not chain.
- PipelineNames.PipelineNameForInstallation: the case without a data stream is not exercised by the tests and is left out.
- JsonValue.Compact: numbers are integers only. Floating point and lone surrogate characters are left out.
- JsonValue.FindKey: with duplicate keys, the first `processors` member is the one used.
- CustomPipelineProcessor.JsonTextLayout: the full JSON snapshot is stated as its layout around `CompactItems` of the old steps and the hook step's text, not as one string literal.
- The other files of the repository next to the helpers are left out: a browser functional-test suite, a React component test, a React component, reselect selectors and constant declarations. None of them holds logic of the helper API.
