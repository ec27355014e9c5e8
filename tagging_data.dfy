/**
 * The tagging task's data handling: the id of a dataset row, its ground-truth categories,
 * and the five-column row save_result appends, laid out as the detection rows are.
 */
module TaggingData {
  import opened Wrappers
  import opened PyStr
  import opened PyIO
  import opened RecordStore
  import opened Metrics
  import opened TaggingModels
  import DetectionData

  /**
   * The id the tagging driver gives a row: str(row['id']) when the row has a truthy id of
   * 16 characters, else the text's hashed id. `rowId` is str(row['id']) when the row has
   * a truthy id; no falsy id prints as 16 characters, so None covers both other cases.
   */
  function DataId(rowId: Option<string>, text: string, sha256: string -> Digest): (id: string)
    ensures |id| == 16
    ensures rowId.Some? && |rowId.value| == 16 ==> id == rowId.value
    ensures !(rowId.Some? && |rowId.value| == 16) ==> id == TextId(sha256, text) && IsKey(id)
  {
    if rowId.Some? && |rowId.value| == 16 then rowId.value else TextId(sha256, text)
  }

  /** An id the driver gave a row is kept as it is when it comes back as the row's id. */
  lemma DataIdStable(rowId: Option<string>, text: string, text': string, sha256: string -> Digest)
    ensures DataId(Some(DataId(rowId, text, sha256)), text', sha256) == DataId(rowId, text, sha256)
  {
  }

  /** extract_labels_from_dataset: a present, non-empty `taggings` column, or the ValueError. */
  function ExtractLabels(taggings: Option<seq<string>>): (r: Result<seq<string>>)
    ensures r.Ok? <==> taggings.Some? && taggings.value != []
    ensures r.Ok? ==> r.value == taggings.value
    ensures r.Err? ==> r.error == "Current dataset doesn't have `taggings` column."
  {
    if taggings.Some? && taggings.value != [] then Ok(taggings.value)
    else Err("Current dataset doesn't have `taggings` column.")
  }

  /** save_result: one row of id, sanitised text, sanitised reason, truth and prediction. */
  method SaveResult(file: TextFile, dataId: string, text: string, reason: string, answer: string, prediction: string)
    modifies file
    ensures file.content == Some(Contents(old(file.content)) + Row(DetectionData.ResultRow(dataId, text, reason, answer, prediction)))
  {
    file.Append(Row(DetectionData.ResultRow(dataId, text, reason, answer, prediction)));
  }

  /** The driver hands save_result text it has already sanitised; sanitising it again changes nothing. */
  lemma SanitizedTwice(dataId: string, text: string, reason: string, answer: string, prediction: string)
    ensures DetectionData.ResultRow(dataId, Sanitize(text), reason, answer, prediction)
            == DetectionData.ResultRow(dataId, text, reason, answer, prediction)
  {
    SanitizeIdempotent(text);
  }
}
