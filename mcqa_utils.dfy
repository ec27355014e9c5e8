/**
 * Where the multiple-choice task keeps its results: one file per model and prompt version
 * in the output directory. Unlike the detection task, the model part keeps its ':'.
 */
module McqaUtils {
  import opened PyStr
  import NarrativeData

  /**
   * setup_output_directory: creates the directory (not modelled) and returns its name; the
   * default is "multiple_choices_easy".
   */
  function SetupOutputDirectory(dirName: string := "multiple_choices_easy"): (dir: string)
    ensures dir == dirName
  {
    dirName
  }

  /** {model}_{version}_results.tsv, the model being its last '/' segment as it is. */
  function SaveFileName(llmModel: string, promptVersion: string): (name: string)
    ensures name != [] && name[0] != '/'
  {
    LastSegment(llmModel, '/') + "_" + promptVersion + "_results.tsv"
  }

  /** get_save_file_path: the file name joined onto the output directory. */
  function GetSaveFilePath(llmModel: string, promptVersion: string, saveDir: string): (path: string)
    ensures saveDir != [] && saveDir[|saveDir| - 1] != '/' ==> path == saveDir + "/" + SaveFileName(llmModel, promptVersion)
    ensures saveDir != [] && saveDir[|saveDir| - 1] == '/' ==> path == saveDir + SaveFileName(llmModel, promptVersion)
    ensures saveDir == [] ==> path == SaveFileName(llmModel, promptVersion)
  {
    PathJoin(saveDir, SaveFileName(llmModel, promptVersion))
  }

  /** The default directory of setup_output_directory. */
  lemma DefaultDirectory()
    ensures SetupOutputDirectory() == "multiple_choices_easy"
  {
  }

  /** A model name without '/' is used whole, ':' included; a provider prefix is dropped. */
  lemma ModelNameKept(provider: string, llmModel: string, promptVersion: string)
    requires '/' !in llmModel
    ensures SaveFileName(llmModel, promptVersion) == llmModel + "_" + promptVersion + "_results.tsv"
    ensures SaveFileName(provider + "/" + llmModel, promptVersion) == SaveFileName(llmModel, promptVersion)
  {
    LastSegmentWhole(llmModel, '/');
    NarrativeData.LastSegmentAfter(provider, llmModel);
  }

  /** A model whose name has a ':' is named differently here than in the detection and narrative files. */
  lemma ColonKept(llmModel: string)
    requires '/' !in llmModel && ':' in llmModel
    ensures LastSegment(llmModel, '/') != NarrativeData.LlmName(llmModel)
  {
    LastSegmentWhole(llmModel, '/');
    assert ':' !in NarrativeData.LlmName(llmModel);
  }

  /** Runs of one model with different prompt versions never share a results file. */
  lemma VersionsKeepApart(llmModel: string, v1: string, v2: string, saveDir: string)
    requires v1 != v2
    ensures GetSaveFilePath(llmModel, v1, saveDir) != GetSaveFilePath(llmModel, v2, saveDir)
  {
    if GetSaveFilePath(llmModel, v1, saveDir) == GetSaveFilePath(llmModel, v2, saveDir) {
      PathJoinInjective(saveDir, SaveFileName(llmModel, v1), SaveFileName(llmModel, v2));
      AffixInjective(LastSegment(llmModel, '/') + "_", v1, v2, "_results.tsv");
    }
  }
}
