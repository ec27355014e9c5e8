# Drivelology evaluation runs, modelled in Dafny

Drivelology evaluates language models on "drivelology": text that is nonsense on the surface but carries meaning underneath. The evaluation has four tasks:

- **narrative:** write the hidden narrative of a text, then score it with G-Eval and BERTScore;
- **detection:** a binary "Drivelology" / "non-Drivelology" label;
- **tagging:** a multi-label tag over five categories;
- **MCQA easy:** multiple-choice narrative selection, A to E.

Every task is a *resumable evaluation run*. One results file is kept per model and prompt version, as a tab-separated file. On start-up the run reads the ids already in that file. It asks the model only about samples whose id is new. Each accepted answer is appended as one sanitised row as soon as it arrives. Afterwards the run reads the file back and computes its metrics.

The project models this core with three kinds of member:

- **The file:** a `PyIO.TextFile` object whose `content` the operations change in place.
- **The loops:** methods with loop invariants. Each is proved equal to a fold over the dataset, such as `DetectionRun.Detect`, `TaggingRun.Tag`, `McqaRun.Answer` or `NarrativeRun.Admitted`.
- **The rest:** the parsers, validators, path builders and metrics, as pure functions with lemmas about them.

The main properties proved:

- A row's id is the id read back when the run resumes.
- Ids already in the file are skipped.
- Every saved row is well formed and carries a validated prediction.
- The metrics computed afterwards are exactly the metrics over the rows written.
- A retry loop returns the first valid reply, or logs one error line after the last attempt.

## Model

| member | source | states |
|---|---|---|
| `PyIO.TextFile.constructor` | src/drivelology/detection/data.py:99-104 | the file object starts with the given content (None for a missing file) |
| `PyIO.TextFile.Append` | src/drivelology/detection/data.py:99-104 | opening with 'a' and writing adds the text at the end and creates a missing file |
| `PyIO.TextFile.AppendEach` | src/drivelology/narrative/data.py:224-241 | successive writes add the concatenation of the texts, in order |
| `PyIO.TextFile.Overwrite` | src/drivelology/narrative/data.py:224-227 | opening with 'w' leaves exactly the new text |
| `PyIO.Translate` | src/drivelology/detection/data.py:40-46 | universal-newline reading leaves no '\r' and never lengthens the text |
| `PyIO.ReadLinesAppend` | src/drivelology/detection/data.py:40-46 | text ending in a newline splits into lines independently of what follows it |
| `PyIO.ReadLinesConcat` | src/drivelology/detection/data.py:40-46 | iterating the lines of a file made of well-formed lines gives back exactly those lines |
| `PyIO.ReadLinesShape` | src/drivelology/detection/data.py:40-46 | every line read ends in '\n' except possibly the last, which is non-empty |
| `PyIO.ConcatSplitLines` | src/drivelology/detection/data.py:40-46 | the lines read, joined again, are the text read |
| `PyIO.AfterTextStep` | src/drivelology/detection/data.py:99-104 | appending in two writes is appending their concatenation; an empty write changes nothing |
| `PyStr.Strip` | src/drivelology/tagging/models.py:41 | str.strip: empty exactly when the text is all whitespace; otherwise no whitespace at either end; trimmed text is left as it is |
| `PyStr.LStrip` | src/drivelology/tagging/models.py:41 | a suffix of the text; everything dropped is whitespace and the result starts with non-whitespace |
| `PyStr.RStrip` | src/drivelology/tagging/models.py:41 | a prefix of the text; everything dropped is whitespace and the result ends with non-whitespace |
| `PyStr.Split` | src/drivelology/tagging/models.py:41 | str.split(sep): at least one piece, and no piece contains the separator |
| `PyStr.SplitJoin` | src/drivelology/tagging/models.py:41 | pieces that avoid the separator, joined with it and split again, come back unchanged |
| `PyStr.JoinSplit` | src/drivelology/tagging/models.py:41 | joining the pieces of a split with the separator rebuilds the text |
| `PyStr.LastSegment` | src/drivelology/detection/utils.py:70 | split(sep)[-1]: the separator-free tail of the text |
| `PyStr.LastSegmentWhole` | src/drivelology/detection/utils.py:70 | a text without the separator is its own last segment |
| `PyStr.Replace` | src/drivelology/detection/utils.py:70 | every occurrence of the character is replaced and nothing else changes |
| `PyStr.Upper` | src/drivelology/mcqa/models.py:45 | the same length, each character upper-cased (ASCII letters only) |
| `PyStr.Lower` | src/drivelology/tagging/models.py:41 | the same length, each character lower-cased (ASCII letters only) |
| `PyStr.LowerUpper` | src/drivelology/tagging/models.py:41 | a word of lower-case letters upper-cases to capitals and lowers back to itself |
| `PyStr.Words` | src/drivelology/narrative/models.py:60-61 | the words of a text, as str.split() gives them: each a non-empty run of non-whitespace characters |
| `PyStr.WordsEmpty` | src/drivelology/narrative/models.py:60-64 | a text has no word exactly when it is all whitespace |
| `PyStr.WordsStrip` | src/drivelology/narrative/models.py:60 | strip() changes no word |
| `PyStr.WordsOfJoin` | src/drivelology/narrative/models.py:60-61 | splitting words joined by single spaces gives the same words back |
| `PyStr.JoinWordsShape` | src/drivelology/narrative/models.py:60-61 | words joined by single spaces have no whitespace at either end and no whitespace but single spaces |
| `PyStr.CollapseWords` | src/drivelology/narrative/models.py:60-61 | on text with no whitespace at its ends, re.sub(r'\s+', ' ', text) is ' '.join(text.split()): the words in order, one space between each two |
| `PyStr.PathJoinInjective` | src/drivelology/detection/utils.py:57-72 | joining different file names onto one directory gives different paths |
| `PyStr.AffixInjective` | src/drivelology/detection/utils.py:69-71 | names that differ only in the version part are different |
| `PyStr.NatStr` | src/drivelology/narrative/data.py:203-212 | str() of a natural number is a non-empty string of decimal digits |
| `PyStr.NatStrParses` | src/drivelology/narrative/data.py:150 | the digits of str(n) parse back to n |
| `PyStr.IntStrRoundTrip` | src/drivelology/narrative/data.py:150 | int() reads back str(i) for every integer, negatives included |
| `Retry.RunFrom` | src/drivelology/tagging/models.py:65-92 | from attempt k on, the loop makes at most the remaining calls, and a value returned is the accepted reply of the last call |
| `Retry.Run` | src/drivelology/tagging/models.py:65-92 | at most max(n, 0) calls; a value returned is the accepted reply of the last call; with n <= 0 there is no call and no value |
| `Retry.RunFirstSuccess` | src/drivelology/detection/models.py:40-67 | when attempt k is the first that succeeds, the loop returns its value |
| `Retry.RunAllFail` | src/drivelology/detection/models.py:40-67 | no value exactly when every attempt fails, and then all attempts were made; before a success every attempt failed |
| `Retry.ErrorLog` | src/drivelology/tagging/models.py:83-88 | nothing is logged on success; when all n attempts fail, one id-TAB-error line with the last attempt's error |
| `RecordStore.Sanitize` | src/drivelology/detection/data.py:70-80 | the same length; '\n', '\r' and '\t' become spaces and every other character stays |
| `RecordStore.SanitizeKeepsClean` | src/drivelology/detection/data.py:70-80 | clean text is left as it is |
| `RecordStore.SanitizeIdempotent` | src/drivelology/detection/data.py:70-80 | sanitising twice is sanitising once |
| `RecordStore.RowEndsWithNewline` | src/drivelology/detection/data.py:99-104 | a saved row ends in '\n' |
| `RecordStore.Fields` | src/drivelology/detection/data.py:42-45 | line.strip().split('\t') has at least one field |
| `RecordStore.CollectIds` | src/drivelology/detection/data.py:40-46 | the loop collects the first field of every non-blank line |
| `RecordStore.LoadExistingIds` | src/drivelology/detection/data.py:28-49 | the ids of the file; a missing file gives the empty set |
| `RecordStore.IdsOfAppend` | src/drivelology/detection/data.py:40-46 | the ids of two runs of lines are the union of their ids |
| `RecordStore.RowIsOneLine` | src/drivelology/detection/data.py:99-104 | a row of clean fields reads back as exactly one line |
| `RecordStore.RowRoundTrip` | src/drivelology/detection/data.py:99-104 | a row of clean fields, stripped and split on tabs, gives its fields back |
| `RecordStore.RowKey` | src/drivelology/detection/data.py:99-104 | a row's first field is the id that loading reads from it |
| `RecordStore.AppendedIdLoads` | src/drivelology/detection/data.py:28-49 | after a row is appended, loading the ids finds the old ids plus the row's id |
| `RecordStore.WrittenIds` | src/drivelology/detection/data.py:28-49 | after any sequence of rows is appended, the ids are the old ids plus every row's id |
| `RecordStore.AfterRowsStep` | src/drivelology/detection/data.py:83-104 | saving one more row appends exactly that row |
| `RecordStore.WrittenEndsLine` | src/drivelology/detection/data.py:99-104 | the rows written together end with a newline |
| `RecordStore.GatherLines` | src/drivelology/detection/evaluation.py:25-33 | the reading loop keeps, in order, what each line yields |
| `RecordStore.GatherAppend` | src/drivelology/detection/evaluation.py:25-33 | reading two runs of lines gives the two results one after the other |
| `RecordStore.TextId` | src/drivelology/detection/data.py:15-25 | the id is 16 lower-case hexadecimal digits and so a clean key |
| `TaskPrompts.PromptLanguage` | src/drivelology/bin/detection.py:45-46 | Ok exactly for the known versions, whose language is "en" or "zh_tw"; any other version gives the unknown-version message listing the known ones |
| `TaskPrompts.LanguageAfterUnderscore` | src/drivelology/bin/detection.py:45-46 | an accepted version's language is the text after its first '_' |
| `TaskPrompts.Versioned` | src/drivelology/bin/detection.py:45-46 | every accepted version has an '_' and a known language suffix |
| `Metrics.ExtractPairs` | src/drivelology/detection/evaluation.py:25-33 | the loop keeps the (answer, prediction) of every non-blank line with enough fields, in order |
| `Metrics.Zip` | src/drivelology/detection/evaluation.py:31-33 | the two lists of truths and predictions have the pairs' length and their components |
| `Metrics.Matches` | src/drivelology/detection/evaluation.py:38 | the number of agreeing pairs: at most their number, all of them exactly when every pair agrees, none exactly when no pair does |
| `Metrics.MatchesAppend` | src/drivelology/detection/evaluation.py:38 | agreements over two runs of rows add up |
| `Metrics.Accuracy` | src/drivelology/detection/evaluation.py:38 | accuracy_score lies between 0 and 1, is 1 exactly when all pairs agree and 0 exactly when none does |
| `Metrics.RowPair` | src/drivelology/detection/evaluation.py:29-33 | a row of clean fields, wide enough, yields its last two fields as its pair |
| `Metrics.OneLinePairs` | src/drivelology/detection/evaluation.py:25-33 | a file of one row yields that row's pair |
| `Metrics.RowPairs` | src/drivelology/detection/evaluation.py:25-33 | the pairs of a list of rows are their last two fields, in order |
| `Metrics.AppendRowPairs` | src/drivelology/detection/evaluation.py:25-33 | appending rows to a file of lines appends their pairs to its pairs |
| `Metrics.WrittenPairs` | src/drivelology/detection/evaluation.py:25-33 | the pairs read from a file after rows are appended are its old pairs followed by the rows' pairs |
| `Metrics.HalfAgree` | src/drivelology/detection/evaluation.py:38 | two pairs of which one agrees have accuracy one half |
| `DetectionData.ConvertLabel` | src/drivelology/detection/data.py:52-67 | label 0 is "Drivelology", 1 is "non-Drivelology", and any other label is an error naming it |
| `DetectionData.ConvertLabelBijective` | src/drivelology/detection/data.py:52-67 | the two labels map to different answers, both of them valid answers |
| `DetectionData.ResultRow` | src/drivelology/detection/data.py:95-104 | five fields: the id, the text and the reason sanitised, then the answer and the prediction |
| `DetectionData.SaveResult` | src/drivelology/detection/data.py:83-104 | the file gains exactly that row |
| `DetectionData.ResultRowReadable` | src/drivelology/detection/data.py:95-104 | the row reads back keyed by its id, is counted by the 5-field reader, and yields (answer, prediction) |
| `DetectionData.AnswersAreKeys` | src/drivelology/detection/data.py:95-104 | both labels are clean field values |
| `DetectionUtils.SetupOutputDirectory` | src/drivelology/detection/utils.py:43-54 | the directory named is returned |
| `DetectionUtils.SaveFileName` | src/drivelology/detection/utils.py:69-71 | the model part and the version, joined by '_', with the ".tsv" suffix |
| `DetectionUtils.GetSaveFilePath` | src/drivelology/detection/utils.py:57-72 | os.path.join: the bare file name for an empty directory, the directory and the name for one ending in '/', and a '/' between them otherwise |
| `DetectionUtils.VersionsKeepApart` | src/drivelology/detection/utils.py:57-72 | two prompt versions of one model never share a file |
| `DetectionUtils.ModelPart` | src/drivelology/detection/utils.py:70 | the model part has no '/' and no ':', and a provider prefix does not change it |
| `DetectionEvaluation.Evaluation` | src/drivelology/detection/evaluation.py:22-45 | an error-only report exactly when no line has five fields; otherwise the accuracy over all such lines and their number |
| `DetectionEvaluation.EvaluateResults` | src/drivelology/detection/evaluation.py:12-45 | a missing file is a not-found error; otherwise the report over its lines |
| `DetectionEvaluation.DisplayMetrics` | src/drivelology/detection/evaluation.py:48-60 | an error report prints only "[ERROR] " followed by the error; a scored one prints the total line and then the accuracy line |
| `DetectionEvaluation.NoRowsOnlyError` | src/drivelology/detection/evaluation.py:35-36 | a file with no qualifying row reports only "No valid results found" |
| `DetectionEvaluation.ScoredOver` | src/drivelology/detection/evaluation.py:38-45 | a scored report's total is the number of qualifying rows and its accuracy lies in [0, 1] |
| `DetectionEvaluation.EvaluatesAppendedRows` | src/drivelology/detection/evaluation.py:22-45 | after saved rows are appended, the report covers the old pairs followed by each row's (answer, prediction) |
| `DetectionEvaluation.HalfOfTwoRows` | src/drivelology/detection/evaluation.py:38-45 | two saved rows, one correct, score one half over two samples |
| `DetectionEvaluation.TwoRowsRead` | src/drivelology/detection/evaluation.py:25-33 | two saved rows yield their two pairs, in order |
| `DetectionModels.ClassifyVerdict` | src/drivelology/detection/models.py:49-59 | accepted exactly when a reply returned one of the two labels; another label gives "Invalid prediction: " and it; a raised error is passed on |
| `DetectionModels.ClassifyText` | src/drivelology/detection/models.py:26-67 | the retry loop over the classifier: each attempt sends the same prompt; a result has a valid label and is the last reply received |
| `DetectionRun.Selected` | src/drivelology/bin/detection.py:70-72 | max_samples keeps the first samples; None or 0 keeps all of them |
| `DetectionRun.Visit` | src/drivelology/bin/detection.py:88-120 | once the run has stopped nothing changes; a sample adds at most one to the counters; rows stay five-field, one per processed sample |
| `DetectionRun.Detect` | src/drivelology/bin/detection.py:84-120 | the sweep over the dataset: five-field rows, one per processed sample |
| `DetectionRun.ProcessDataset` | src/drivelology/bin/detection.py:84-120 | the loop appends exactly the rows of the sweep, in order, and its counters match it |
| `DetectionRun.ProcessSample` | src/drivelology/bin/detection.py:93-120 | one iteration is one step of the sweep |
| `DetectionRun.DetectNext` | src/drivelology/bin/detection.py:84-120 | the sweep over one more sample is one more step |
| `DetectionRun.FailureStays` | src/drivelology/bin/detection.py:101 | after a label that does not convert stops the run, later samples change nothing |
| `DetectionRun.RunDetection` | src/drivelology/bin/detection.py:44-131 | a bad version stops before any work; eval-only with a file only evaluates; a missing dataset stops; otherwise the file gains the sweep's rows and the report covers them |
| `DetectionRun.DetectRows` | src/drivelology/bin/detection.py:88-120 | every saved row is keyed by a 16-character id not known beforehand, reads back at five fields, and holds two valid labels |
| `DetectionRun.ClassifiedValid` | src/drivelology/bin/detection.py:110-119 | a saved prediction is one of the two labels |
| `DetectionRun.ResumeIds` | src/drivelology/bin/detection.py:75 | after the run, the ids loaded from the file are the old ids plus the ids of the rows saved |
| `DetectionRun.FinalEvaluation` | src/drivelology/bin/detection.py:124-131 | the final report is over the old pairs followed by the pairs of the rows saved |
| `DetectionRun.AllKnownSkipped` | src/drivelology/bin/detection.py:93-98 | a dataset whose ids are all in the file adds no row and skips every sample |
| `TaggingData.DataId` | src/drivelology/bin/tagging.py:95-100 | the dataset id when it has exactly 16 characters, otherwise the text's hash id; either way 16 characters |
| `TaggingData.DataIdStable` | src/drivelology/bin/tagging.py:95-100 | an id fed back as the dataset id is kept, so a sample's id is the same on every run |
| `TaggingData.ExtractLabels` | src/drivelology/tagging/data.py:43-46 | the taggings when the column is present and non-empty; otherwise the missing-column error |
| `TaggingData.SaveResult` | src/drivelology/tagging/data.py:86-106 | the file gains the same five-field row as a detection result |
| `TaggingData.SanitizedTwice` | src/drivelology/tagging/data.py:86-106 | the text sanitised by the caller and again by the saver is saved sanitised once |
| `TaggingModels.Categories` | src/drivelology/tagging/models.py:41 | the stripped, lower-cased comma pieces of a prediction, one per piece |
| `TaggingModels.AcceptsMixedCase` | src/drivelology/tagging/models.py:31-42 | a category written in upper case with surrounding spaces is accepted |
| `TaggingModels.RejectsUnknown` | src/drivelology/tagging/models.py:31-42 | a piece that is not one of the five categories fails validation |
| `TaggingModels.RejectsEmpty` | src/drivelology/tagging/models.py:31-42 | the empty prediction fails validation |
| `TaggingModels.RejectsTrailingComma` | src/drivelology/tagging/models.py:31-42 | a trailing comma leaves an empty piece and fails validation |
| `TaggingModels.CommaJoinValid` | src/drivelology/tagging/models.py:31-42 | categories joined by "," split back into exactly those categories |
| `TaggingModels.CommaJoinValidates` | src/drivelology/tagging/models.py:31-42 | any non-empty list of categories joined by "," is valid |
| `TaggingModels.SpacePrefixValid` | src/drivelology/tagging/models.py:31-42 | categories joined by ", " are valid too |
| `TaggingModels.CategoriesAreLowerWords` | src/drivelology/tagging/models.py:16 | the five categories are lower-case words |
| `TaggingModels.NotAllNamed` | src/drivelology/tagging/models.py:42 | one unknown piece makes the whole prediction invalid |
| `TaggingModels.AllNamedOne` | src/drivelology/tagging/models.py:42 | a single piece is valid exactly when it is a category |
| `TaggingModels.TaggingVerdict` | src/drivelology/tagging/models.py:66-80 | a reply is accepted exactly when its prediction validates, and then keeps its raw prediction and reason |
| `TaggingModels.GeneratePrediction` | src/drivelology/tagging/models.py:45-92 | the retry loop over the tagger: a result validates; the error log gains one line after the last failure |
| `TaggingEvaluation.Binarize` | src/drivelology/tagging/evaluation.py:82-87 | five 0/1 entries; entry i is 1 exactly when category i is among the stripped, lower-cased pieces |
| `TaggingEvaluation.Indicator` | src/drivelology/tagging/evaluation.py:83 | 1 exactly when the category is listed, otherwise 0 |
| `TaggingEvaluation.CalculateMetrics` | src/drivelology/tagging/evaluation.py:63-94 | None exactly when no line has five fields; otherwise the binarised truth and prediction of every such line, in order |
| `TaggingEvaluation.VectorsOfPairs` | src/drivelology/tagging/evaluation.py:74-90 | the vectors are the binarised pairs read at five fields |
| `TaggingEvaluation.HammingLoss` | src/drivelology/tagging/evaluation.py:105 | lies in [0, 1] and is 0 exactly when every truth vector equals its prediction |
| `TaggingEvaluation.Differing` | src/drivelology/tagging/evaluation.py:105 | the positions where two vectors differ, at most their length |
| `TaggingEvaluation.DifferingAll` | src/drivelology/tagging/evaluation.py:105 | the differing positions over all rows, at most five per row |
| `TaggingEvaluation.BinarizeJoined` | src/drivelology/tagging/evaluation.py:82-87 | the ", "-joined taggings binarise to exactly the categories named |
| `TaggingEvaluation.SameCategoriesNoLoss` | src/drivelology/tagging/evaluation.py:82-105 | a prediction naming the same categories as the truth costs no Hamming loss |
| `TaggingRun.SaveFileName` | src/drivelology/bin/tagging.py:54-55 | the model's last '/' segment and the version, with the "_multilabel.tsv" suffix |
| `TaggingRun.ModelNameKept` | src/drivelology/bin/tagging.py:54-55 | a model name without '/' is used whole, ':' included |
| `TaggingRun.Tag` | src/drivelology/bin/tagging.py:93-139 | the rows and counters of the sweep over the dataset |
| `TaggingRun.ProcessDataset` | src/drivelology/bin/tagging.py:93-139 | the loop appends exactly the sweep's rows and its counters match it |
| `TaggingRun.ProcessSample` | src/drivelology/bin/tagging.py:95-139 | one iteration is one step of the sweep |
| `TaggingRun.TagOne` | src/drivelology/bin/tagging.py:119-137 | a validated prediction is saved with the joined taggings as truth |
| `TaggingRun.TagNext` | src/drivelology/bin/tagging.py:93-139 | the sweep over one more sample is one more step |
| `TaggingRun.RunTagging` | src/drivelology/bin/tagging.py:31-147 | a bad version stops before any work; eval-only with a file only evaluates; otherwise the file gains the sweep's rows and is then evaluated |
| `TaggingRun.TagRows` | src/drivelology/bin/tagging.py:95-139 | every saved row has a new 16-character id, clean fields, the joined taggings as truth and a prediction that validates |
| `TaggingRun.ResumeIds` | src/drivelology/bin/tagging.py:82 | the ids loaded after the run are the old ids plus the saved rows' ids |
| `TaggingRun.AllKnownSkipped` | src/drivelology/bin/tagging.py:102-104 | a dataset whose ids are all known adds no row and logs no error |
| `McqaData.GetNarrativeFields` | src/drivelology/mcqa/data.py:15-39 | the positive and negative columns of the language family, English for any other language |
| `McqaData.NarrativeFieldsDistinct` | src/drivelology/mcqa/data.py:15-39 | the positive column is never one of the negative columns |
| `McqaData.Swap` | src/drivelology/mcqa/data.py:176 | exchanging two entries keeps the multiset |
| `McqaData.Shuffled` | src/drivelology/mcqa/data.py:176 | random.shuffle as Fisher-Yates over the random draws: a permutation of the input |
| `McqaData.Shuffle` | src/drivelology/mcqa/data.py:176 | the array afterwards holds the Fisher-Yates permutation of its old contents under the draws |
| `McqaData.ShuffledCopy` | src/drivelology/mcqa/data.py:172-176 | the list of values shuffled, a permutation of it |
| `McqaData.Values` | src/drivelology/mcqa/data.py:172 | the sample's values of the named columns, in order |
| `McqaData.FirstIndex` | src/drivelology/mcqa/data.py:177 | list.index: the first position holding the value |
| `McqaData.Letter` | src/drivelology/mcqa/data.py:178 | chr(65 + i), a letter from 'A' |
| `McqaData.LettersOfFive` | src/drivelology/mcqa/data.py:178 | the indexes of five options give the letters A to E |
| `McqaData.EasyOptions` | src/drivelology/mcqa/data.py:159-180 | the options are a permutation of the positive and the negatives, and the letter names the first option equal to the positive |
| `McqaData.PrepareOptionsEasy` | src/drivelology/mcqa/data.py:159-180 | the method builds exactly those options and that letter; with four negatives the letter is one of A to E |
| `McqaData.HardOptions` | src/drivelology/mcqa/data.py:183-204 | the options are a permutation of the negatives and the answer is "E" |
| `McqaData.PrepareOptionsHard` | src/drivelology/mcqa/data.py:183-204 | the method builds exactly those options and answer |
| `McqaData.HardAnswerBeyondOptions` | src/drivelology/mcqa/data.py:198-204 | with four options the answer letter "E" names none of them |
| `McqaData.EasyRow` | src/drivelology/mcqa/data.py:94-99 | nine fields: id, sanitised text, five options, answer and prediction |
| `McqaData.HardRow` | src/drivelology/mcqa/data.py:119-124 | eight fields: id, sanitised text, four options, answer and prediction |
| `McqaData.SaveResultEasy` | src/drivelology/mcqa/data.py:79-101 | the file gains exactly the easy row |
| `McqaData.SaveResultHard` | src/drivelology/mcqa/data.py:104-126 | the file gains exactly the hard row |
| `McqaData.LettersAreKeys` | src/drivelology/mcqa/data.py:94-99 | the answer letters are clean field values |
| `McqaData.EasyRowReadable` | src/drivelology/mcqa/data.py:94-99 | the easy row reads back keyed by its id, at nine fields, yielding (answer, prediction) |
| `McqaData.HardRowReadable` | src/drivelology/mcqa/data.py:119-124 | the hard row reads back keyed by its id, at eight fields, yielding (answer, prediction) |
| `McqaModels.AnswerVerdict` | src/drivelology/mcqa/models.py:44-51 | accepted exactly when the stripped, upper-cased answer is one of A to E, which is then the result; otherwise "Invalid prediction: " and that text |
| `McqaModels.AcceptsPaddedLetter` | src/drivelology/mcqa/models.py:44-51 | a lower-case letter with spaces around it is accepted as its capital |
| `McqaModels.LetterIsOption` | src/drivelology/mcqa/models.py:48-49 | an accepted prediction is one of the five letters |
| `McqaModels.AcceptsNormalized` | src/drivelology/mcqa/models.py:44-51 | every letter A to E is accepted as itself |
| `McqaModels.GeneratePrediction` | src/drivelology/mcqa/models.py:22-63 | the retry loop over the answerer: a result is a letter A to E; the error log gains one line after the last failure |
| `McqaEvaluation.Evaluation` | src/drivelology/mcqa/evaluation.py:11-35 | None exactly when no line has eight fields; otherwise the accuracy over those lines |
| `McqaEvaluation.CalculateMetrics` | src/drivelology/mcqa/evaluation.py:11-35 | the evaluation of the file's lines |
| `McqaEvaluation.ShortRowIgnored` | src/drivelology/mcqa/evaluation.py:26 | a row of fewer than eight fields adds no pair |
| `McqaEvaluation.EasyAndHardRowsRead` | src/drivelology/mcqa/evaluation.py:22-29 | both a nine-field easy row and an eight-field hard row are read |
| `McqaEvaluation.HalfOfEasyAndHard` | src/drivelology/mcqa/evaluation.py:35 | an easy row right and a hard row wrong score one half |
| `McqaEvaluation.EvaluatesAppendedRows` | src/drivelology/mcqa/evaluation.py:11-35 | after easy rows are appended, the evaluation covers the old pairs followed by the rows' pairs |
| `McqaUtils.SetupOutputDirectory` | src/drivelology/mcqa/utils.py:39-50 | the directory named is returned |
| `McqaUtils.DefaultDirectory` | src/drivelology/mcqa/utils.py:39-50 | the default directory is "multiple_choices_easy" |
| `McqaUtils.SaveFileName` | src/drivelology/mcqa/utils.py:64-65 | the model's last '/' segment and the version, with the "_results.tsv" suffix |
| `McqaUtils.GetSaveFilePath` | src/drivelology/mcqa/utils.py:53-67 | os.path.join: the bare file name for an empty directory, the directory and the name for one ending in '/', and a '/' between them otherwise |
| `McqaUtils.ModelNameKept` | src/drivelology/mcqa/utils.py:64 | a model name without '/' is used whole, and a provider prefix is dropped |
| `McqaUtils.ColonKept` | src/drivelology/mcqa/utils.py:64 | a model with ':' is named differently than in the detection and narrative files |
| `McqaUtils.VersionsKeepApart` | src/drivelology/mcqa/utils.py:53-67 | two prompt versions of one model never share a file |
| `McqaRun.Visit` | src/drivelology/bin/mcqa_easy.py:77-116 | a sample adds at most one nine-field row, and the processed count grows with the rows |
| `McqaRun.Answered` | src/drivelology/bin/mcqa_easy.py:103-114 | an answered sample adds one nine-field row and counts it; a failure adds none |
| `McqaRun.Answer` | src/drivelology/bin/mcqa_easy.py:76-116 | the sweep over the dataset: nine-field rows, one per processed sample, no more than the samples |
| `McqaRun.ProcessDataset` | src/drivelology/bin/mcqa_easy.py:76-116 | the loop appends exactly the sweep's rows and its counters match it |
| `McqaRun.ProcessSample` | src/drivelology/bin/mcqa_easy.py:80-100 | one iteration is one step of the sweep |
| `McqaRun.AskOne` | src/drivelology/bin/mcqa_easy.py:103-114 | an accepted letter is saved with the options and answer letter |
| `McqaRun.AnswerNext` | src/drivelology/bin/mcqa_easy.py:76-116 | the sweep over one more sample is one more step |
| `McqaRun.RunMcqaEasy` | src/drivelology/bin/mcqa_easy.py:28-121 | a bad version stops before any work; eval-only with a file only evaluates; otherwise the file gains the sweep's rows and is then evaluated |
| `McqaRun.AnswerRows` | src/drivelology/bin/mcqa_easy.py:80-114 | every saved row has a new id and clean fields, its letter names the option holding the sample's positive, and both letters are A to E |
| `McqaRun.AnsweredSaved` | src/drivelology/bin/mcqa_easy.py:103-114 | an answered sample's row is a saved row |
| `McqaRun.ResumeIds` | src/drivelology/bin/mcqa_easy.py:64 | the ids loaded after the run are the old ids plus the saved rows' ids |
| `McqaRun.FinalEvaluation` | src/drivelology/bin/mcqa_easy.py:118-121 | the final evaluation covers the old pairs followed by the saved rows' pairs |
| `McqaRun.SavedReadable` | src/drivelology/bin/mcqa_easy.py:103-114 | a saved row reads back at nine fields |
| `McqaRun.AllKnownSkipped` | src/drivelology/bin/mcqa_easy.py:80-82 | a dataset whose ids are all known adds no row and logs no error |
| `NarrativeConfig.TypeValue` | src/drivelology/narrative/config.py:22-27 | the name of the prompt type, twenty characters for either type |
| `NarrativeConfig.KeyInjective` | src/drivelology/narrative/config.py:234 | different (type, version) pairs get different registry keys |
| `NarrativeConfig.Lookup` | src/drivelology/narrative/config.py:237-254 | the registered prompt of the key, or an error naming the type and version |
| `NarrativeConfig.LookupAfterRegister` | src/drivelology/narrative/config.py:227-254 | a prompt just registered is found |
| `NarrativeConfig.LookupOtherAfterRegister` | src/drivelology/narrative/config.py:227-254 | registering a prompt leaves the lookup of every other key unchanged |
| `NarrativeConfig.RegisterOverwrites` | src/drivelology/narrative/config.py:227-235 | registering twice under one key keeps the later prompt |
| `NarrativeConfig.RegisterAllKeys` | src/drivelology/narrative/config.py:58-225 | the registry holds exactly the keys of the prompts registered |
| `NarrativeConfig.RegisterAllSize` | src/drivelology/narrative/config.py:58-225 | prompts with distinct keys, all new to the registry, add one entry each |
| `NarrativeConfig.DefaultRegistrySize` | src/drivelology/narrative/config.py:58-225 | the default registry holds the eight built-in prompts |
| `NarrativeConfig.FreshRegistry` | src/drivelology/narrative/config.py:53-56 | registering prompts in an empty registry holds exactly their keys, one entry per prompt |
| `NarrativeConfig.DefaultPairsDistinct` | src/drivelology/narrative/config.py:58-225 | no two built-in prompts share a key |
| `NarrativeConfig.DefaultLacksEvaluationV2` | src/drivelology/narrative/config.py:58-225 | the built-in prompts have no evaluation version "v2_en"; asking for it gives the not-found error naming its key |
| `NarrativeConfig.FilteredSpec` | src/drivelology/narrative/config.py:256-274 | the listing holds exactly the registered keys of the type asked for, or all keys |
| `NarrativeConfig.PromptManager.constructor` | src/drivelology/narrative/config.py:53-56 | the new manager holds the default prompts |
| `NarrativeConfig.PromptManager.RegisterPrompt` | src/drivelology/narrative/config.py:227-235 | the registry gains or replaces exactly that key |
| `NarrativeConfig.PromptManager.GetPrompt` | src/drivelology/narrative/config.py:237-254 | the lookup in the manager's registry |
| `NarrativeConfig.PromptManager.ListPrompts` | src/drivelology/narrative/config.py:256-274 | the filtered keys, leaving the registry unchanged |
| `NarrativeData.GetReferenceNarrative` | src/drivelology/narrative/data.py:67-86 | en, zh_tw and zh read pos_en, pos_tc and pos_sc; any other code gives "" |
| `NarrativeData.ReferenceColumns` | src/drivelology/narrative/data.py:67-86 | the three languages read three different columns |
| `NarrativeData.LlmName` | src/drivelology/narrative/data.py:262 | the model's last '/' segment with ':' replaced by '-' |
| `NarrativeData.GetResultFilepath` | src/drivelology/narrative/data.py:246-264 | gen_{model}_prompt_{generation}_eval_{evaluation}.tsv joined onto the output directory as os.path.join does, for an empty directory, one ending in '/' and any other |
| `NarrativeData.SameFileAcrossProviders` | src/drivelology/narrative/data.py:262 | a provider prefix does not change the file |
| `NarrativeData.ExtractLanguageCode` | src/drivelology/narrative/data.py:267-287 | the text after the first '_', or an error when there is none |
| `NarrativeData.LanguageCodeIsRest` | src/drivelology/narrative/data.py:267-287 | '_'.join of the pieces after the first is the text after the first '_' |
| `NarrativeData.LanguageCodeOfVersion` | src/drivelology/narrative/data.py:267-287 | "v1_en" and "v1_zh_tw" give "en" and "zh_tw" |
| `NarrativeData.ResultFields` | src/drivelology/narrative/data.py:203-212 | eight columns; a missing score is written as "" |
| `NarrativeData.AppendResult` | src/drivelology/narrative/data.py:186-213 | with the header flag the file becomes the header and the row; otherwise it gains the row |
| `NarrativeData.SaveResults` | src/drivelology/narrative/data.py:216-241 | the file becomes the header followed by every row, in order |
| `NarrativeData.GetProcessedIds` | src/drivelology/narrative/data.py:89-115 | the first fields of the non-blank lines after the header; a missing file gives the empty set |
| `NarrativeData.Settle` | src/drivelology/narrative/data.py:155-164 | the BERTScore columns are read left to right and the first failure leaves it and the later ones None |
| `NarrativeData.SettleSound` | src/drivelology/narrative/data.py:155-164 | a score read is the float() of its column |
| `NarrativeData.SettleStops` | src/drivelology/narrative/data.py:160-164 | after a failed float() no later column is read |
| `NarrativeData.ParseScoresAllParse` | src/drivelology/narrative/data.py:155-164 | when all three columns parse, all three scores are read |
| `NarrativeData.ParseFailureStops` | src/drivelology/narrative/data.py:160-164 | a failing column leaves every later score None |
| `NarrativeData.RecordOf` | src/drivelology/narrative/data.py:137-166 | lines with fewer than four fields give nothing; G-Eval is int() of the fifth field, and BERTScore is read only at eight fields |
| `NarrativeData.LoadProcessedResults` | src/drivelology/narrative/data.py:118-170 | the records of the lines after the header, in order; a missing file gives none |
| `NarrativeData.HeaderSkipped` | src/drivelology/narrative/data.py:105-106 | behind the header, ids and records come from the rows alone |
| `NarrativeData.HeaderEmpty` | src/drivelology/narrative/data.py:89-115 | a file holding only the header has no processed ids |
| `NarrativeData.ResultRoundTrip` | src/drivelology/narrative/data.py:118-212 | a saved result reads back as one line and loads as the result as written: sanitised texts and formatted scores |
| `NarrativeData.ScoredRowRoundTrip` | src/drivelology/narrative/data.py:155-164 | a fully scored row loads back with all three BERTScores |
| `NarrativeData.UnscoredRowRoundTrip` | src/drivelology/narrative/data.py:137-164 | a row without BERTScore loads back without it |
| `NarrativeData.GevalRoundTrip` | src/drivelology/narrative/data.py:147-152 | int() reads back a written G-Eval score, and a missing score is written as "" |
| `NarrativeData.TrailingEmptyColumns` | src/drivelology/narrative/data.py:137-138 | strip() removes the tabs of empty trailing columns, so such a row reads back as only the columns before them |
| `NarrativeData.AppendedResultProcessed` | src/drivelology/narrative/data.py:186-213 | after a result is appended, its id is among the processed ids |
| `NarrativeData.FirstResultProcessed` | src/drivelology/narrative/data.py:186-213 | the first result, written with the header, is the only processed id |
| `NarrativeData.AppendedResultLoads` | src/drivelology/narrative/data.py:118-213 | after a result is appended, the loaded results gain its written form at the end |
| `NarrativeEvaluation.EvaluateWithBertScore` | src/drivelology/narrative/evaluation.py:18-40 | three equally long score lists: the scorer's, or zeros of the batch's length when it fails |
| `NarrativeEvaluation.FailedScoringGivesZeros` | src/drivelology/narrative/evaluation.py:36-40 | a failed scoring gives every result zero BERTScores |
| `NarrativeEvaluation.BertLang` | src/drivelology/narrative/evaluation.py:62 | "en" exactly for codes starting with "en", "zh" otherwise |
| `NarrativeEvaluation.ScoredBatch` | src/drivelology/narrative/evaluation.py:66-70 | each result gains the scores at its position and keeps everything else |
| `NarrativeEvaluation.Padded` | src/drivelology/narrative/evaluation.py:84-93 | the fields padded with "" to eight |
| `NarrativeEvaluation.WithScores` | src/drivelology/narrative/evaluation.py:84-93 | at least eight fields, the first five kept and columns 5 to 7 replaced by the scores |
| `NarrativeEvaluation.ScoreColumns` | src/drivelology/narrative/evaluation.py:90-92 | the three BERTScore columns as a result row writes them |
| `NarrativeEvaluation.PatchRow` | src/drivelology/narrative/evaluation.py:84-93 | the patched line of a found row |
| `NarrativeEvaluation.PatchParts` | src/drivelology/narrative/evaluation.py:84-93 | the row of the fields with the scores written in |
| `NarrativeEvaluation.PadParts` | src/drivelology/narrative/evaluation.py:86-87 | the padding loop appends the filler until the length is reached |
| `NarrativeEvaluation.FindRowFirst` | src/drivelology/narrative/evaluation.py:82-95 | the row found is the first line starting with id and a tab; none found means no line does |
| `NarrativeEvaluation.UpdateRow` | src/drivelology/narrative/evaluation.py:73-110 | the file's first matching line is patched, or the row is appended when none matches |
| `NarrativeEvaluation.UpdateResultsWithBertScore` | src/drivelology/narrative/evaluation.py:43-110 | an empty batch changes nothing; otherwise the results gain their scores and the file is updated row by row |
| `NarrativeEvaluation.BackfilledLines` | src/drivelology/narrative/evaluation.py:73-110 | only the matched line changes and the line count is kept |
| `NarrativeEvaluation.PatchedReadsBack` | src/drivelology/narrative/evaluation.py:84-93 | the patched line loads back with the new scores and its other fields |
| `NarrativeEvaluation.BackfilledIds` | src/drivelology/narrative/evaluation.py:73-110 | patching keeps the processed ids; appending adds the result's id |
| `NarrativeEvaluation.Present` | src/drivelology/narrative/evaluation.py:120-122 | a value is kept exactly when the input holds it as a present score; empty exactly when every score is None |
| `NarrativeEvaluation.PresentAppend` | src/drivelology/narrative/evaluation.py:120-122 | the filter works entry by entry in order: a concatenation is filtered part by part, a present score kept as its value, None dropped |
| `NarrativeEvaluation.MaxOf` | src/drivelology/narrative/evaluation.py:130 | an element at least every element |
| `NarrativeEvaluation.MinOf` | src/drivelology/narrative/evaluation.py:130 | an element at most every element |
| `NarrativeEvaluation.Sort` | src/drivelology/narrative/evaluation.py:130 | sorted() is a sorted permutation |
| `NarrativeEvaluation.Summarize` | src/drivelology/narrative/evaluation.py:127-148 | None exactly for no scores ("No scores available"); otherwise max() is an element at least every score, min() an element at most every score, the mean is sum/len and lies between them, and the count is len |
| `NarrativeEvaluation.ResultStatistics` | src/drivelology/narrative/evaluation.py:113-155 | the total; the G-Eval, F1 and recall summaries are those of the scores present in each column, each existing exactly when some result has that score; the median, when there is one, is sorted(scores)[len // 2] of the present G-Eval scores |
| `NarrativeEvaluation.ColumnsPresent` | src/drivelology/narrative/evaluation.py:120-122 | a score column has no present value exactly when no result carries that score |
| `NarrativeEvaluation.MeanBounds` | src/drivelology/narrative/evaluation.py:127-148 | the mean lies between the minimum and the maximum |
| `NarrativeEvaluation.MedianBounds` | src/drivelology/narrative/evaluation.py:130 | the median is an element between the minimum and the maximum |
| `NarrativeEvaluation.MedianSplits` | src/drivelology/narrative/evaluation.py:130 | the median is at least the lower half of the sorted scores and at most the upper half |
| `NarrativeModels.Normalize` | src/drivelology/narrative/models.py:60-61 | strip then re.sub equals ' '.join(text.split()): the text's words in order, one space between each two; empty exactly for all-whitespace text; no whitespace at the ends and none but single spaces inside |
| `NarrativeModels.NormalizeIdempotent` | src/drivelology/narrative/models.py:60-61 | normalising a normalised narrative leaves it unchanged |
| `NarrativeModels.NormalizedNarrative` | src/drivelology/narrative/models.py:60-61 | the normalised text has no whitespace at either end and no two spaces in a row |
| `NarrativeModels.NarrativeVerdict` | src/drivelology/narrative/models.py:55-66 | accepted exactly when the reply returned text with a non-whitespace character; the accepted narrative is the normalised reply; a raised error is passed on |
| `NarrativeModels.GenerateNarrative` | src/drivelology/narrative/models.py:37-74 | the retry loop over the writer: the result is the first non-empty normalised narrative, or None |
| `NarrativeModels.GeneratedIsNarrative` | src/drivelology/narrative/models.py:60-66 | a generated narrative is normalised and non-empty |
| `NarrativeModels.GevalVerdict` | src/drivelology/narrative/models.py:97-102 | the reply's integer score is accepted as it is |
| `NarrativeModels.EvaluateWithGeval` | src/drivelology/narrative/models.py:77-110 | the retry loop over the judge: a score is the reply of the last call made; None once the retries run out |
| `NarrativeRun.Head` | src/drivelology/bin/narrative.py:93-94 | list slicing [:n], negative n included |
| `NarrativeRun.Limited` | src/drivelology/bin/narrative.py:93-94 | max_samples keeps the first samples; None or 0 keeps them all |
| `NarrativeRun.Prepare` | src/drivelology/bin/narrative.py:68-133 | the run starts exactly when both versions carry a language and name built-in prompts |
| `NarrativeRun.MissingBert` | src/drivelology/bin/narrative.py:116-119 | exactly the loaded results lacking a BERTScore |
| `NarrativeRun.Attempt` | src/drivelology/bin/narrative.py:147-176 | no reference narrative means no result; a result keeps the id, the text with newlines flattened, and the reference |
| `NarrativeRun.Fill` | src/drivelology/bin/narrative.py:193-195 | the pending batch size stays below the batch width |
| `NarrativeRun.Pending` | src/drivelology/bin/narrative.py:193-195 | the pending results are the last Fill of them |
| `NarrativeRun.AppendedRows` | src/drivelology/bin/narrative.py:184-185 | one append per result, the header only with the first |
| `NarrativeRun.TrySample` | src/drivelology/bin/narrative.py:147-176 | the method's result is the attempt |
| `NarrativeRun.ScoreBatch` | src/drivelology/bin/narrative.py:194 | a non-empty batch is scored and written; an empty one changes nothing |
| `NarrativeRun.Record` | src/drivelology/bin/narrative.py:179-195 | the result is appended and the batch flushed when it is full |
| `NarrativeRun.ProcessSample` | src/drivelology/bin/narrative.py:139-195 | a new id with a result is recorded; the header flag drops after the first |
| `NarrativeRun.ProcessSamples` | src/drivelology/bin/narrative.py:139-199 | the results are the admitted ones, and the file is their appends and batch scorings |
| `NarrativeRun.FlushPending` | src/drivelology/bin/narrative.py:198-199 | the last partial batch is scored |
| `NarrativeRun.ScoreSlices` | src/drivelology/bin/narrative.py:205-208 | the slices of the missing rows are scored in turn |
| `NarrativeRun.ScoreMissing` | src/drivelology/bin/narrative.py:202-208 | a batch size of 0 with rows missing scores is the step-0 error; otherwise every slice is scored |
| `NarrativeRun.PrepareRun` | src/drivelology/bin/narrative.py:68-133 | the set-up's outcome is Prepare's |
| `NarrativeRun.RunEvaluationPipeline` | src/drivelology/bin/narrative.py:33-224 | a failed set-up writes nothing; otherwise the file holds the admitted results, their scores and the back-filled old rows |
| `NarrativeRun.EvaluateOnly` | src/drivelology/bin/narrative.py:231-263 | a missing file is an error and writes nothing; otherwise the rows missing scores are scored and the statistics computed |
| `NarrativeRun.AdmittedUnseen` | src/drivelology/bin/narrative.py:140-145 | no admitted result has an id already processed |
| `NarrativeRun.AdmittedDistinct` | src/drivelology/bin/narrative.py:181 | admitted results have distinct ids |
| `NarrativeRun.AdmittedSources` | src/drivelology/bin/narrative.py:147-176 | every admitted result comes from a sample |
| `NarrativeRun.AdmittedComplete` | src/drivelology/bin/narrative.py:140-181 | every new sample with a result is admitted |
| `NarrativeRun.LoopBatches` | src/drivelology/bin/narrative.py:193-195 | the batches flushed in the loop are the results in order, without the pending tail |
| `NarrativeRun.LoopBatchSizes` | src/drivelology/bin/narrative.py:193-195 | every batch flushed in the loop is full |
| `NarrativeRun.NewBatches` | src/drivelology/bin/narrative.py:193-199 | with the final flush, the batches cover every result in order |
| `NarrativeRun.NewBatchSizes` | src/drivelology/bin/narrative.py:193-199 | every batch is full except possibly the last |
| `NarrativeRun.LoopAppends` | src/drivelology/bin/narrative.py:184-185 | the appends so far are the rows of the results so far |
| `NarrativeRun.NewAppends` | src/drivelology/bin/narrative.py:184-185 | every result is appended once, the header with the first |
| `NarrativeRun.FillIsMod` | src/drivelology/bin/narrative.py:193-195 | the pending count is the result count modulo the batch width |
| `NarrativeRun.FlushStep` | src/drivelology/bin/narrative.py:193-195 | the batch is flushed exactly when it reaches the batch size |
| `NarrativeRun.SlicesCover` | src/drivelology/bin/narrative.py:205-208 | the slices cover the missing rows in order, each no wider than the batch size |
| `NarrativeRun.SliceCount` | src/drivelology/bin/narrative.py:205-208 | the number of slices is the rows divided by the batch size, rounded up |
| `NarrativeRun.ReplayExists` | src/drivelology/bin/narrative.py:211-216 | the file exists afterwards exactly when it existed or a result was appended |
| `NarrativeRun.ScoringExists` | src/drivelology/bin/narrative.py:211-216 | scoring never creates the file |
| `NarrativeRun.NoFileNoResults` | src/drivelology/bin/narrative.py:211-216 | with no file afterwards, no result was admitted |

## Left out

- The language-model backends are parameters. A backend maps (prompt, attempt) to a reply. Prompt templates and `str.format` are a rendering parameter too. The templates' texts are not part of this model.
- `DetectionModels.ClassifyText`, `McqaModels.GeneratePrediction`, `TaggingModels.GeneratePrediction`, `NarrativeModels.GenerateNarrative` and `NarrativeModels.EvaluateWithGeval` are weaker than the source on errors. Every failed reply is retried. The source catches only InstructorRetryException, IncompleteOutputException and ValueError; any other exception ends the run.
- `PyStr.Upper` and `PyStr.Lower` handle ASCII letters only. Acceptance is unchanged, since every valid letter and category is ASCII. The "Invalid prediction: …" text that `McqaModels.GeneratePrediction` logs differs for non-ASCII answers; Python upper-cases "ß" to "SS".
- `NarrativeEvaluation.ResultStatistics` works on exact reals. Floats become `real`, and their printing (`str(float)`) and parsing (`float()`) are an opaque format parameter. Rounding in the means is not modelled.
- `PyIO.AfterText` replays appends by their concatenated text, so an append of nothing leaves a missing file missing, where `open(path, 'a')` would create it empty. Every row the drivers append ends in a newline and so is never empty; `PyIO.TextFile.Append` models the creation.
- `NarrativeEvaluation.UpdateResultsWithBertScore` returns the scored results as new values. The source mutates the result objects it is given.
- `PyStr.ParseInt` accepts ASCII digits only, with a sign, surrounding whitespace and single underscores between digits. Python's `int()` also accepts other Unicode decimal digits.
- `McqaData.PrepareOptionsEasy` and `McqaData.EasyOptions` require the number of negative columns to be small enough that `chr(65 + i)` is a character for every option index. The source has no such bound; its column lists always have four negatives, far below the limit.
- SHA-256 is a parameter: `RecordStore.TextId` keeps its 16-hex-digit shape but not the digest.
- Randomness is a parameter. `random.shuffle` becomes Fisher-Yates over the given draws.
- BERTScore is a scorer parameter, which may fail.
- Dataset loading is a parameter: `load_dataset`, the Hugging Face hub, and the split choice in the tagging driver. So is the existence of the dataset object.
- Console output, progress bars, argument parsing, `.env` loading and `os.makedirs` are not modelled. The directory setup functions only return the directory name.
- The per-class and other metric lines are not modelled. This covers `display_metrics`' per-class lines and, for MCQA, precision, recall, F1, the classification report and the confusion matrix.
- For tagging, only the Hamming loss is modelled. The Jaccard score, the three F1 scores, the classification report, and the unused mAP and lwlrap helpers of tagging/evaluation.py are left out.
- The hard MCQA driver (bin/mcqa_hard.py) is not part of this model. Its data operations `prepare_options_hard` and `save_result_hard` are modelled.
- `TaggingRun.RunTagging` states the evaluation's vectors only as present exactly when the file has a qualifying row. `TaggingEvaluation.CalculateMetrics` states them in full.
- `NarrativeEvaluation.FindRowFirst` can match the header line, exactly as the source's prefix test can.
- Exceptions while reading or writing a file are not modelled. Every open succeeds, and the `except` branches around file reading in `load_existing_ids` and `get_processed_ids` never run.
- Concurrency is not modelled: a run is one sequential process.
