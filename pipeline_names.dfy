/** Installation names of ingest pipelines and of the "@custom" hook pipeline of a data stream. */
module PipelineNames {
  import opened Wrappers

  /** The fields of a registry data stream record; `ingestPipeline` is optional in the record type. */
  datatype RegistryDataStream = RegistryDataStream(
    dataset: string,
    title: string,
    release: string,
    streamType: string,
    ingestPipeline: Option<string>,
    package: string,
    path: string)

  /** The part every installation name of a data stream at one version starts with. */
  function StreamVersionPrefix(dataStream: RegistryDataStream, packageVersion: string): string
  {
    dataStream.streamType + "-" + dataStream.dataset + "-" + packageVersion
  }

  /** True when `pipelineName` is the data stream's own entry pipeline. */
  predicate IsEntryPipeline(pipelineName: string, dataStream: RegistryDataStream)
  {
    dataStream.ingestPipeline == Some(pipelineName)
  }

  /** The name under which a pipeline of a data stream is installed: the entry pipeline
      is named after the data stream and version alone, any other pipeline keeps its own
      name as a suffix. */
  function PipelineNameForInstallation(pipelineName: string, dataStream: RegistryDataStream, packageVersion: string): (r: string)
    ensures IsEntryPipeline(pipelineName, dataStream) ==>
      r == dataStream.streamType + "-" + dataStream.dataset + "-" + packageVersion
    ensures !IsEntryPipeline(pipelineName, dataStream) ==>
      r == dataStream.streamType + "-" + dataStream.dataset + "-" + packageVersion + "-" + pipelineName
  {
    var suffix := if IsEntryPipeline(pipelineName, dataStream) then "" else "-" + pipelineName;
    StreamVersionPrefix(dataStream, packageVersion) + suffix
  }

  /** The name of the user-overridable pipeline that every data stream pipeline hooks into. */
  function CustomPipelineNameForDatastream(dataStream: RegistryDataStream): (r: string)
    ensures |r| == |dataStream.streamType| + |dataStream.dataset| + 8
    ensures r[..|r| - 7] == dataStream.streamType + "-" + dataStream.dataset
    ensures r[|r| - 7..] == "@custom"
  {
    dataStream.streamType + "-" + dataStream.dataset + "@custom"
  }

  /** Within one data stream and package version, different pipelines never share an
      installation name. */
  lemma InstallationNameInjective(dataStream: RegistryDataStream, packageVersion: string, name1: string, name2: string)
    requires PipelineNameForInstallation(name1, dataStream, packageVersion)
          == PipelineNameForInstallation(name2, dataStream, packageVersion)
    ensures name1 == name2
  {
    var p := StreamVersionPrefix(dataStream, packageVersion);
    var e1, e2 := IsEntryPipeline(name1, dataStream), IsEntryPipeline(name2, dataStream);
    if e1 && e2 {
    } else if !e1 && !e2 {
      var r := PipelineNameForInstallation(name1, dataStream, packageVersion);
      assert r == (p + "-") + name1 == (p + "-") + name2;
      assert name1 == r[|p| + 1..];
      assert name2 == r[|p| + 1..];
    }
  }

  /** The entry pipeline's installation name is a prefix of every other pipeline's
      installation name in the same data stream and version. */
  lemma EntryNamePrefixesReferencedNames(dataStream: RegistryDataStream, packageVersion: string, entry: string, other: string)
    requires IsEntryPipeline(entry, dataStream) && !IsEntryPipeline(other, dataStream)
    ensures PipelineNameForInstallation(other, dataStream, packageVersion)
         == PipelineNameForInstallation(entry, dataStream, packageVersion) + "-" + other
  {
  }

  /** The custom hook pipeline never collides with a pipeline installed for the same data
      stream, whatever the pipeline name and version: the character after
      `type-dataset` is `@` in the one and `-` in the other. */
  lemma CustomNameNeverInstallationName(dataStream: RegistryDataStream, packageVersion: string, pipelineName: string)
    ensures CustomPipelineNameForDatastream(dataStream)
         != PipelineNameForInstallation(pipelineName, dataStream, packageVersion)
  {
    var stream := dataStream.streamType + "-" + dataStream.dataset;
    var custom := CustomPipelineNameForDatastream(dataStream);
    var installed := PipelineNameForInstallation(pipelineName, dataStream, packageVersion);
    var k := |stream|;
    assert custom == stream + "@custom";
    assert custom[k] == '@';
    if |installed| > k {
      assert installed == stream + ("-" + packageVersion + installed[|StreamVersionPrefix(dataStream, packageVersion)|..]);
      assert installed[k] == '-';
    }
  }

  /** The data stream of the naming test: entry pipeline `pipeline-entry`. */
  function CorednsLogStream(): RegistryDataStream
  {
    RegistryDataStream("coredns.log", "CoreDNS logs", "ga", "logs", Some("pipeline-entry"), "coredns", "log")
  }

  lemma CorednsInstallationNames()
    ensures PipelineNameForInstallation("pipeline-entry", CorednsLogStream(), "1.0.1") == "logs-coredns.log-1.0.1"
    ensures PipelineNameForInstallation("pipeline-json", CorednsLogStream(), "1.0.1") == "logs-coredns.log-1.0.1-pipeline-json"
  {
  }

  lemma LogsTestCustomName()
    ensures CustomPipelineNameForDatastream(RegistryDataStream("test", "", "", "logs", None, "", "")) == "logs-test@custom"
  {
  }
}
