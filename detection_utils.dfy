/**
 * Where the detection task keeps its results: one file per model and prompt version in the
 * output directory, named after the model as the narrative task names it.
 */
module DetectionUtils {
  import opened PyStr
  import NarrativeData

  /** setup_output_directory: creates the directory (not modelled) and returns its name unchanged. */
  function SetupOutputDirectory(dirName: string): (dir: string)
    ensures dir == dirName
  {
    dirName
  }

  /** {model}_{version}.tsv, the model being its last '/' segment with each ':' turned into '-'. */
  function SaveFileName(llmModel: string, promptVersion: string): (name: string)
    ensures name != [] && name[0] != '/'
  {
    NarrativeData.LlmName(llmModel) + "_" + promptVersion + ".tsv"
  }

  /** get_save_file_path: the file name joined onto the output directory. */
  function GetSaveFilePath(llmModel: string, promptVersion: string, saveDir: string): (path: string)
    ensures saveDir != [] && saveDir[|saveDir| - 1] != '/' ==> path == saveDir + "/" + SaveFileName(llmModel, promptVersion)
    ensures saveDir != [] && saveDir[|saveDir| - 1] == '/' ==> path == saveDir + SaveFileName(llmModel, promptVersion)
    ensures saveDir == [] ==> path == SaveFileName(llmModel, promptVersion)
  {
    PathJoin(saveDir, SaveFileName(llmModel, promptVersion))
  }

  /** Runs of one model with different prompt versions never share a results file. */
  lemma VersionsKeepApart(llmModel: string, v1: string, v2: string, saveDir: string)
    requires v1 != v2
    ensures GetSaveFilePath(llmModel, v1, saveDir) != GetSaveFilePath(llmModel, v2, saveDir)
  {
    if GetSaveFilePath(llmModel, v1, saveDir) == GetSaveFilePath(llmModel, v2, saveDir) {
      PathJoinInjective(saveDir, SaveFileName(llmModel, v1), SaveFileName(llmModel, v2));
      AffixInjective(NarrativeData.LlmName(llmModel) + "_", v1, v2, ".tsv");
    }
  }

  /** The model part never holds '/' or ':', and a model given with a provider prefix uses its own name. */
  lemma ModelPart(provider: string, model: string, promptVersion: string)
    requires '/' !in model
    ensures '/' !in NarrativeData.LlmName(provider + "/" + model) && ':' !in NarrativeData.LlmName(provider + "/" + model)
    ensures SaveFileName(provider + "/" + model, promptVersion) == SaveFileName(model, promptVersion)
  {
    NarrativeData.LastSegmentAfter(provider, model);
    LastSegmentWhole(model, '/');
  }
}
