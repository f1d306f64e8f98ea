# Mind-Echo text pipeline in Dafny

A model of the text-processing core of the Mind-Echo dataset tools, with proofs of
what that core promises. It covers two generations of the pipeline.

The current tools under `processed_data/`:

- Transcript structuring (`build_dataset_adult.py`):
  - visits are cut at bracket-marker lines;
  - turns are built by a buffering state machine;
  - a four-way role classifier;
  - keyword/body header splitting;
  - the file-name grammar;
  - GAD-7 / PHQ-9 item sums;
  - per-run success/failure accounting.
- Speaker labelling (`label_speakers.py`): an explicit tag pass, and a heuristic alternating pass used only when the explicit pass finds nothing.
- Prefix ids of dialogue file names and their per-folder statistics (`count_dialogue_prefix_ids.py`).
- Name anonymisation by span splicing over a named-entity recogniser (`anonymize_names.py`). The recogniser is a function parameter.

The earlier `Data_Pipeline/` tools:

- the transcript reader and session file-name parser (`txt_reader.py`);
- the merger of dialogues with spreadsheet records, with longitudinal visit records and statistics (`data_merger.py`);
- the two PHQ-9 spreadsheet readers (`excel_reader.py`, `excel_reader_fixed.py`);
- the minimal line parser and per-patient grouping of `process_script.py`.

## Modules

| file | module | what it holds |
|---|---|---|
| text.dfy | Text | `strip`, `startswith`, `in`, `find`, `split`, `splitlines` and decimal numbers on `seq<char>` |
| ordered_map.dfy | OrderedMap | Python's insertion-ordered `dict` |
| table.dfy | Table | spreadsheet rows as (column label, cell) sequences; cells empty, integer or text |
| dialogue.dfy | Dialogue | visit segmentation, the role classifier, the turn state machine (`_parse_turns`) |
| keywords.dfy | Keywords | the keyword header and the body that follows it |
| file_title.dfy | FileTitle | the dialogue file-name grammar of `_parse_file_title` |
| build_dataset.dfy | BuildDataset | dialogue start, scale sums, visit ids, run statistics |
| label_speakers.dfy | LabelSpeakers | explicit and heuristic speaker labelling and their counters |
| sorted_set.dfy | SortedSet | `sorted(set(xs))` over integers |
| prefix_ids.dfy | PrefixIds | `extract_prefix_ids`, `scan_dir` over a list of stems, the overall union |
| anonymize.dfy | Anonymize | `replace_spans`, entity filtering, chunked detection, line-wise anonymisation |
| txt_reader.dfy | TxtReader | `parse_dialogue`, `_identify_role_and_content`, `extract_session_info` |
| phq9.dfy | Phq9 | severity bands, item numbers, the stable sort of item scores |
| excel_fixed.dfy | ExcelFixed | `excel_reader_fixed.py`: assessment, patient info, column names, `process_excel_data` |
| excel_reader.dfy | ExcelReader | `excel_reader.py`: assessment, demographics, column mapping, row processing |
| data_merger.dfy | DataMerger | `_determine_visit_type`, `merge_patient_data` |
| merger_output.dfy | MergerOutput | `build_longitudinal_data`, `convert_to_final_format`, `generate_statistics` |
| process_script.dfy | ProcessScript | `process_script.py`'s line parser and per-patient visit grouping |

Operations that work step by step in the source are methods with loops:

- `_split_visits` and `_parse_turns`;
- both labelling passes;
- `scan_dir`, `replace_spans` and `detect`;
- the readers' row loops, `merge_patient_data` and the statistics counters.

Each method is proved against a function that specifies it. Objects whose fields the source updates in place are classes: the run statistics, the labelling counters and the older reader's column mapping.

### Behaviour that follows from the code

These cases read differently from what one might expect, and the model follows the code in each.

- **`【P（母亲）】` tags.** A tag like `【P（母亲）】` names a mother, yet `_normalize_role` (processed_data/build_dataset_adult.py:27-34) only knows the caregiver cues 家属 and 家长, so the token `P（母亲）` is classified as patient, with speaker note 母亲. The model gives the same answer (`Dialogue.NormalizeRole`).
- **A first line of "大夫你好".** The line addresses the doctor, yet `is_patient_side_explicit` (processed_data/label_speakers.py:72-74) recognises only 医生 forms of address. A first line "大夫你好" therefore starts with the doctor's label. With age 10 the non-doctor label is 患者家属 (`LabelSpeakers.StartRole`, `LabelSpeakers.ChooseNonDoctorLabel`).
- **`P10086_visit_1.txt`.** The docstring of `extract_session_info` gives visit type `visit_1` and `is_initial` true for this name. The code (Data_Pipeline/txt_reader.py:236-257) keeps only the pattern's second group, `visit`, as the visit type, and leaves `is_initial` false. `visit_number` is 1.

## Model

| member | source | states |
|---|---|---|
| Anonymize.Placeholder | processed_data/anonymize_names.py:7-8 | a NAME span becomes `[NAME]`, every other kind `[ORG]` |
| Anonymize.PyTake | processed_data/anonymize_names.py:71 | `s[:i]` is a prefix of `s`, of length `i` when `i` is in range |
| Anonymize.PyDrop | processed_data/anonymize_names.py:71 | `s[i:]` is a suffix of `s`, of length `|s| - i` when `i` is in range |
| Anonymize.PySliceSplit | processed_data/anonymize_names.py:71 | `s[:i] + s[i:] == s` for every integer `i`, negative and out of range included |
| Anonymize.InsertDesc | processed_data/anonymize_names.py:69 | inserting into a list sorted by descending start keeps it sorted and adds exactly that entity |
| Anonymize.DescendingSnoc | processed_data/anonymize_names.py:69 | an entity starting no later than the last keeps a descending list descending |
| Anonymize.SnocMultiset | processed_data/anonymize_names.py:69 | appending the same entity to both sides keeps the insertion's multiset equation |
| Anonymize.SortDesc | processed_data/anonymize_names.py:69 | the sort by descending start is sorted and a permutation of its input |
| Anonymize.SortDescSorted | processed_data/anonymize_names.py:69 | the sort is stable: an already descending list is unchanged |
| Anonymize.Reverse | processed_data/anonymize_names.py:69 | the reversal keeps the length and puts element `k` at `|xs|-1-k` |
| Anonymize.SortDescAscending | processed_data/anonymize_names.py:69 | entities in strictly ascending start order are sorted into their reversal |
| Anonymize.ReversedBelowLast | processed_data/anonymize_names.py:69 | in an ascending run, every entity reversed out of the front starts before the last one |
| Anonymize.ReplaceSpans | processed_data/anonymize_names.py:65-72 | the loop splices each entity, latest start first; no entities leaves the text unchanged |
| Anonymize.Spans | processed_data/anonymize_names.py:65-72 | a text written as gaps and spans has one entity per span |
| Anonymize.SpansInside | processed_data/anonymize_names.py:65-72 | those entities lie inside the text, do not overlap, and are in descending order |
| Anonymize.SpliceSpans | processed_data/anonymize_names.py:69-71 | splicing the spans latest first turns each span into its placeholder and keeps the text around it |
| Anonymize.ReplacedLayout | processed_data/anonymize_names.py:65-72 | `replace_spans` over in-bounds, non-overlapping spans masks exactly those spans and keeps everything else in order |
| Anonymize.ReplacedLayoutAscending | processed_data/anonymize_names.py:65-72 | the same holds when the entities arrive in ascending order, as the detector yields them |
| Anonymize.ReplacedLayoutAnyOrder | processed_data/anonymize_names.py:65-72 | in-bounds, non-overlapping spans with text in them, given in any order, are each masked and the text around them is kept in order |
| Anonymize.DescendingUnique | processed_data/anonymize_names.py:69 | the sort by descending start of entities with distinct starts is the only descending order of them |
| Anonymize.LastOfDescending | processed_data/anonymize_names.py:69 | two such orders end with the same entity, the one starting first |
| Anonymize.InitMultiset | processed_data/anonymize_names.py:69 | removing that shared last entity leaves the same entities |
| Anonymize.SpansStrict | processed_data/anonymize_names.py:69 | non-empty spans give strictly decreasing starts |
| Anonymize.AnonymizeLines | processed_data/anonymize_names.py:88-90 | one output line per input line; a blank line is kept, any other has its detected spans replaced |
| Anonymize.AnonymizeText | processed_data/anonymize_names.py:84-86 | the empty text is returned unchanged |
| Anonymize.AnonymizeLineAt | processed_data/anonymize_names.py:89-90 | the loop body keeps a blank line and masks any other |
| Anonymize.AnonymizeTextFull | processed_data/anonymize_names.py:80-91 | the method computes the line-by-line anonymization with line endings kept, joined back |
| Anonymize.MaskedLines | processed_data/anonymize_names.py:84-91 | when every line is masked, joining them gives the anonymized text |
| Anonymize.QuietDetector | processed_data/anonymize_names.py:80-91 | a detector that finds nothing leaves every text unchanged |
| Anonymize.BlankTextKept | processed_data/anonymize_names.py:89 | a text of whitespace only is never changed, whatever the detector says |
| Anonymize.ItemEntity | processed_data/anonymize_names.py:36-44 | an item gives an entity iff `0 <= start < end` and its label contains PER/PERSON/NAME or ORG; shifted by the offset and labelled NAME or ORG |
| Anonymize.ToEntitiesOf | processed_data/anonymize_names.py:33-45 | at most one entity per item, each well formed (start at or past the offset, non-empty, NAME or ORG) |
| Anonymize.ToEntities | processed_data/anonymize_names.py:33-45 | the loop keeps exactly the entities of the qualifying items, in item order |
| Anonymize.ToEntitiesStep | processed_data/anonymize_names.py:33-45 | one more item appends its entity, when it gives one, to the entities of the items before it |
| Anonymize.ItemEntityCases | processed_data/anonymize_names.py:36-45 | negative or empty offsets give nothing; a person label gives a NAME entity, else a label holding ORG an ORG entity, else nothing |
| Anonymize.Chunks | processed_data/anonymize_names.py:54-59 | every chunk is a non-empty range inside `[start, n)` |
| Anonymize.ChunksEnds | processed_data/anonymize_names.py:54-59 | the chunks start at `start`, end at the text's end, and there are none only when nothing is left |
| Anonymize.ChunkAt | processed_data/anonymize_names.py:54-59 | each chunk is at most the chunk size; every chunk but the last has exactly that size and the next starts where it ends |
| Anonymize.ChunkEntities | processed_data/anonymize_names.py:53-60 | every entity found over the chunks is well formed in text positions |
| Anonymize.DetectOf | processed_data/anonymize_names.py:47-60 | `detect` yields only well-formed entities |
| Anonymize.DetectIsChunked | processed_data/anonymize_names.py:50-51 | the one-call shortcut for a short text finds what the chunk loop finds |
| Anonymize.ChunkStep | processed_data/anonymize_names.py:56-59 | one chunk's entities, shifted by its start, then the rest of the chunks |
| Anonymize.DetectChunk | processed_data/anonymize_names.py:56-59 | the loop body advances the start and keeps the total of found plus remaining entities |
| Anonymize.Detect | processed_data/anonymize_names.py:47-60 | the method computes `detect`'s entities |
| Anonymize.DetectDone | processed_data/anonymize_names.py:53-60 | when the loop's start reaches the end of the text the collected entities are `detect`'s result |
| Anonymize.ProcessFile | processed_data/anonymize_names.py:94-109 | the new stem is the masked stem, the new text the anonymized text, and each flag is true iff that part changed |
| Anonymize.NothingDetected | processed_data/anonymize_names.py:101-109 | when nothing is detected neither the name nor the content changes |
| BuildDataset.BodyStart | processed_data/build_dataset_adult.py:100-104 | the dialogue start, when found, lies within the body |
| BuildDataset.DialogueOf | processed_data/build_dataset_adult.py:96-114 | `parse_dialogue` gives one turn list per visit segment |
| BuildDataset.ContentStartsAtMarker | processed_data/build_dataset_adult.py:100-106 | the content starts with `【D】` if the body has one, else `[医生]`, else `【P】`, wherever the others occur; with no marker it is the whole stripped body |
| BuildDataset.FirstColumnFrom | processed_data/build_dataset_adult.py:124 | the column found is the first one at or after `from` with the prefix; none found means no such column |
| BuildDataset.ItemsUpTo | processed_data/build_dataset_adult.py:123-125 | a successful read gives exactly `k` items |
| BuildDataset.SelectRows | processed_data/build_dataset_adult.py:118 | the selected rows are rows of the sheet whose `序号` is one of the ids |
| BuildDataset.ScalesUpTo | processed_data/build_dataset_adult.py:121-140 | a successful read gives one record per row |
| BuildDataset.ItemsFailureStays | processed_data/build_dataset_adult.py:123-125 | once an item fails, reading more items keeps that same failure |
| BuildDataset.ScalesFailureStays | processed_data/build_dataset_adult.py:121-140 | once a row fails, later rows are never read and the failure stands |
| BuildDataset.ReadScale | processed_data/build_dataset_adult.py:122-126 | the item loop reads the items of one questionnaire and sums them, or fails as `next`/`int` raise |
| BuildDataset.ReadItems | processed_data/build_dataset_adult.py:123-125 | the item loop reads items 1..n in order and stops at the first that fails |
| BuildDataset.ReadRecord | processed_data/build_dataset_adult.py:122-140 | one row's GAD-7 and PHQ-9 record, or the first failure |
| BuildDataset.ParseScales | processed_data/build_dataset_adult.py:117-142 | the method computes `parse_scales`, including a missing `序号` column as an error |
| BuildDataset.ItemIsCell | processed_data/build_dataset_adult.py:124-125 | item `j+1` is the integer under the first column with its prefix |
| BuildDataset.BadItemFails | processed_data/build_dataset_adult.py:124-125 | one unreadable item makes the whole scale fail; nothing is zero-filled |
| BuildDataset.RecordIsRow | processed_data/build_dataset_adult.py:121-140 | record `j` is read from selected row `j` |
| BuildDataset.BadRowFails | processed_data/build_dataset_adult.py:121-140 | one unreadable row makes `parse_scales` fail |
| BuildDataset.RecordShape | processed_data/build_dataset_adult.py:134-140 | a record is from "self", with 7 GAD-7 and 9 PHQ-9 items whose totals are their sums |
| BuildDataset.ScalesShape | processed_data/build_dataset_adult.py:117-142 | a successful `parse_scales` gives one well-formed record per selected row, in sheet order |
| BuildDataset.MissingItemColumn | processed_data/build_dataset_adult.py:124-130 | an item with no column raises as soon as a row is selected and is never looked for otherwise |
| BuildDataset.RecordItemsAreCells | processed_data/build_dataset_adult.py:123-131 | every item of a read record is the integer under its own column |
| BuildDataset.VisitsUpTo | processed_data/build_dataset_adult.py:176-187 | one visit per segment read so far |
| BuildDataset.BuildVisits | processed_data/build_dataset_adult.py:176-187 | the visit loop builds one visit per segment |
| BuildDataset.BuildPatient | processed_data/build_dataset_adult.py:171-202 | the method computes `build_patient`'s record, or the exception it raises |
| BuildDataset.VisitAtIndex | processed_data/build_dataset_adult.py:177-186 | visit `i` is built from segment `i` |
| BuildDataset.PatientVisits | processed_data/build_dataset_adult.py:171-202 | a patient gets one visit per segment, visit `i` with id `V-{first:06d}-{i+1}`, the segment text and its turns; id, name, gender and age come from the file name |
| BuildDataset.PatientFailures | processed_data/build_dataset_adult.py:172-174 | a file name that does not parse is reported first, then a scale failure |
| BuildDataset.PatientKeywords | processed_data/build_dataset_adult.py:199-200 | keywords, when present, are a non-empty list of clean keywords |
| BuildDataset.VisitIdInjective | processed_data/build_dataset_adult.py:180 | visit ids are equal only for the same first id and visit number |
| BuildDataset.PatientIdInjective | processed_data/build_dataset_adult.py:190 | patient ids are distinct for distinct first ids |
| BuildDataset.RunStats.constructor | processed_data/build_dataset_adult.py:207-217 | all counters start at zero with no errors |
| BuildDataset.RunStats.CountFile | processed_data/build_dataset_adult.py:221 | only the file count goes up |
| BuildDataset.RunStats.AddConverted | processed_data/build_dataset_adult.py:225-234 | the converted, visit and per-feature counters move as one converted patient requires |
| BuildDataset.RunStats.AddFailed | processed_data/build_dataset_adult.py:236-237 | the failed count goes up and the error is logged |
| BuildDataset.TallyStep | processed_data/build_dataset_adult.py:220-237 | one more file updates the stats and the patient list by its own outcome |
| BuildDataset.Build | processed_data/build_dataset_adult.py:205-247 | the dataset holds schema 0.2, the source dir, the stats of the files and the converted patients in order |
| BuildDataset.TallyBalance | processed_data/build_dataset_adult.py:207-237 | every file is counted once as converted or failed, one error per failure, converted = patients, feature counts within converted, visits summed |
| BuildDataset.TallyFiles | processed_data/build_dataset_adult.py:207-237 | every file is counted once, as converted or failed, with one error per failure |
| BuildDataset.TallyFeatures | processed_data/build_dataset_adult.py:225-233 | the keyword, gender, age and scale counts never exceed the converted files |
| BuildDataset.TallyPatients | processed_data/build_dataset_adult.py:222-235 | the converted files are the patients, and the visit total is their visits |
| BuildDataset.RunStats.Count | processed_data/build_dataset_adult.py:220-237 | one more file updates the stats in place, as converted or as failed |
| BuildDataset.VisitIdParts | processed_data/build_dataset_adult.py:190 | after `V-` a visit id reads as its padded first id, a dash and the visit number |
| BuildDataset.ContentFrom | processed_data/build_dataset_adult.py:100-106 | a body whose start is the marker found there yields content starting with that marker |
| DataMerger.VisitTypeOf | Data_Pipeline/data_merger.py:137-161 | the result is always one of initial, follow_up, regular, unknown |
| DataMerger.StandardTypesFixed | Data_Pipeline/data_merger.py:137-161 | initial, follow_up and regular each map to themselves |
| DataMerger.InitialFixed | Data_Pipeline/data_merger.py:137-161 | `initial` maps to itself |
| DataMerger.FollowUpFixed | Data_Pipeline/data_merger.py:137-161 | `follow_up` maps to itself |
| DataMerger.RegularFixed | Data_Pipeline/data_merger.py:137-161 | `regular` maps to itself |
| DataMerger.UnknownFixed | Data_Pipeline/data_merger.py:137-161 | "unknown" matches no variant and no cue, so it maps to itself |
| DataMerger.UnknownHasNoInitialCue | Data_Pipeline/data_merger.py:149-150 | "unknown" holds none of the initial cues |
| DataMerger.UnknownHasNoFollowUpCue | Data_Pipeline/data_merger.py:153-154 | "unknown" holds none of the follow-up cues |
| DataMerger.UnknownHasNoRegularCue | Data_Pipeline/data_merger.py:156-157 | "unknown" holds none of the regular cues |
| DataMerger.VisitTypeIdempotent | Data_Pipeline/data_merger.py:137-161 | standardizing twice is standardizing once |
| DataMerger.GetOrElse | Data_Pipeline/data_merger.py:91-92 | `.get(key, default)`: the value when present, the default otherwise |
| DataMerger.FilenamePatientId | Data_Pipeline/data_merger.py:96-99 | an id taken from a file name is `P` and at least one digit at its start |
| DataMerger.FilePatient | Data_Pipeline/data_merger.py:91-99 | a file's own patient id other than "unknown" wins |
| DataMerger.FileSession | Data_Pipeline/data_merger.py:119-120 | without its own session id a file goes to `{patient_id}_{visit_type}` |
| DataMerger.AddFile | Data_Pipeline/data_merger.py:101-132 | filing a dialogue keeps the merged data well formed |
| DataMerger.Initial | Data_Pipeline/data_merger.py:81-87 | the spreadsheet patients start with no dialogues and no sessions |
| DataMerger.MergeFiles | Data_Pipeline/data_merger.py:90-132 | filing files keeps the merged data well formed |
| DataMerger.AddDialogue | Data_Pipeline/data_merger.py:91-132 | the loop body files one dialogue, as `AddFile` specifies |
| DataMerger.InitialPatients | Data_Pipeline/data_merger.py:81-87 | the first loop builds the spreadsheet patients in order |
| DataMerger.InitialStep | Data_Pipeline/data_merger.py:81-87 | one more spreadsheet id adds its patient unless it is already there |
| DataMerger.MergeFilesStep | Data_Pipeline/data_merger.py:90-132 | one more file is one more filing step |
| DataMerger.MergePatientData | Data_Pipeline/data_merger.py:62-135 | the method computes the merge of both sources |
| DataMerger.InitialShape | Data_Pipeline/data_merger.py:81-87 | keys are the spreadsheet ids in order, each entry its record with nothing filed |
| DataMerger.InitialKeys | Data_Pipeline/data_merger.py:81-87 | distinct spreadsheet ids become the keys, in order |
| DataMerger.InitialEntry | Data_Pipeline/data_merger.py:81-87 | every initial patient holds its own spreadsheet record and nothing filed |
| DataMerger.SessionHead | Data_Pipeline/data_merger.py:122-130 | a session is opened iff some file goes to it |
| DataMerger.PatientsAfterMerge | Data_Pipeline/data_merger.py:90-116 | a patient is present iff the spreadsheet has it or a file goes to it; its record is kept and its dialogues are exactly its files in order |
| DataMerger.SessionsAfterMerge | Data_Pipeline/data_merger.py:118-132 | a session is present iff a file goes to it; it keeps what its first file set and holds exactly its files in order |
| DataMerger.SessionPresence | Data_Pipeline/data_merger.py:118-132 | inside a patient, a session is present iff some file goes to it |
| DataMerger.SessionContent | Data_Pipeline/data_merger.py:118-132 | a present session keeps what its first file set and holds exactly its files in order |
| DataMerger.ContentStep | Data_Pipeline/data_merger.py:118-132 | one more file of the patient extends its session's files and opens the session if new |
| DataMerger.AddFileOther | Data_Pipeline/data_merger.py:101-132 | filing a dialogue leaves every other patient as it was |
| DataMerger.AddFileSession | Data_Pipeline/data_merger.py:118-132 | filing adds the dialogue to its session, opening it if new, and leaves the other sessions |
| DataMerger.AddFileKeys | Data_Pipeline/data_merger.py:101-106 | filing appends a new patient to the keys and keeps them otherwise |
| DataMerger.NoSessionFiles | Data_Pipeline/data_merger.py:116-132 | a patient with no files has no session files |
| DataMerger.MergeShape | Data_Pipeline/data_merger.py:62-135 | every spreadsheet patient is present with its record; a patient is present iff listed or filed to; its dialogues are its files |
| DataMerger.MergeKeepsOrder | Data_Pipeline/data_merger.py:101-106 | filing keeps the patients already there in order and only appends new ones |
| DataMerger.FallbackPatient | Data_Pipeline/data_merger.py:94-99 | a file without a usable id goes to the `P<digits>` at the head of its name |
| Dialogue.Unmarked | processed_data/build_dataset_adult.py:12-21 | the lines a marker test rejects, in order |
| Dialogue.Groups | processed_data/build_dataset_adult.py:12-21 | there is at least one run of lines |
| Dialogue.GroupsSnoc | processed_data/build_dataset_adult.py:14-21 | a marker opens a new run; any other line joins the last run |
| Dialogue.GroupsStep | processed_data/build_dataset_adult.py:12-21 | the runs of one more line of the list |
| Dialogue.GroupsPartition | processed_data/build_dataset_adult.py:12-24 | one run more than there are markers; no marker is in any run; the runs read in order give back every other line |
| Dialogue.GroupsCount | processed_data/build_dataset_adult.py:14-21 | there is one run more than there are marker lines |
| Dialogue.GroupsMarkerFree | processed_data/build_dataset_adult.py:14-21 | no marker line belongs to any run |
| Dialogue.GroupsFlatten | processed_data/build_dataset_adult.py:14-21 | reading the runs in order gives back every non-marker line in order |
| Dialogue.UnmarkedSnoc | processed_data/build_dataset_adult.py:14-21 | one more line is kept by the reading back exactly when it is not a marker |
| Dialogue.VisitTexts | processed_data/build_dataset_adult.py:18-23 | one text per run |
| Dialogue.VisitTextsSnoc | processed_data/build_dataset_adult.py:18-23 | one more run adds its text |
| Dialogue.NonEmpty | processed_data/build_dataset_adult.py:24 | the filter keeps exactly the non-empty texts, in order |
| Dialogue.NonEmptyAppend | processed_data/build_dataset_adult.py:24 | the filter distributes over concatenation |
| Dialogue.ClosingRun | processed_data/build_dataset_adult.py:17-23 | closing the open run adds its text only when the run is not empty, as `if current:` does |
| Dialogue.MarkerLine | processed_data/build_dataset_adult.py:14-20 | a marker line closes the current run and is dropped |
| Dialogue.OrdinaryLine | processed_data/build_dataset_adult.py:21 | any other line joins the current run |
| Dialogue.SplitVisits | processed_data/build_dataset_adult.py:8-24 | the method computes the non-empty trimmed texts of the runs between marker lines |
| Dialogue.TextsTrimmed | processed_data/build_dataset_adult.py:18-24 | the kept texts are non-empty and trimmed |
| Dialogue.KeptTrimmed | processed_data/build_dataset_adult.py:18-24 | a trimmed visit text kept by the filter leaves only trimmed non-empty texts |
| Dialogue.SegmentsTrimmed | processed_data/build_dataset_adult.py:8-24 | every segment is non-empty and already trimmed |
| Dialogue.GroupsWithoutMarkers | processed_data/build_dataset_adult.py:12-23 | without marker lines there is one run: the whole input |
| Dialogue.SegmentsWithoutMarkers | processed_data/build_dataset_adult.py:17-24 | with no marker lines there is one segment (the trimmed joined lines) or none when that is empty |
| Dialogue.GroupsAroundMarker | processed_data/build_dataset_adult.py:14-21 | a marker line splits the runs of what precedes and what follows it |
| Dialogue.TwoVisits | processed_data/build_dataset_adult.py:8-24 | one marker between two marker-free, non-blank parts yields exactly those two segments |
| Dialogue.RunsOfTwo | processed_data/build_dataset_adult.py:14-21 | one marker between two marker-free parts gives exactly those two runs |
| Dialogue.TextsOfTwo | processed_data/build_dataset_adult.py:18-24 | two runs with non-blank texts give exactly those two texts |
| Dialogue.NormalizeRole | processed_data/build_dataset_adult.py:27-34 | doctor iff starts with D or holds 医生; caregiver iff not doctor and holds 家属/家长; patient iff neither and starts with P or holds 患者; otherwise other |
| Dialogue.FirstClose | processed_data/build_dataset_adult.py:60 | the first closing bracket, none before it |
| Dialogue.MatchTag | processed_data/build_dataset_adult.py:60-64 | a match has a non-empty token without closing brackets and a trimmed text |
| Dialogue.MatchTagOfTagLine | processed_data/build_dataset_adult.py:60-64 | a line `【token】：text` reads back as that token and the trimmed text |
| Dialogue.NoteOf | processed_data/build_dataset_adult.py:67-68 | a note exists only when the token holds both （ and ）, and then it is what lies between the first （ and the next ） |
| Dialogue.NoteOfBracketed | processed_data/build_dataset_adult.py:67-68 | a token `prefix（note）suffix` with no （ in the prefix carries exactly `note` |
| Dialogue.Flushed | processed_data/build_dataset_adult.py:43-54 | `flush` emits at most one turn, only with an open speaker and non-empty joined text |
| Dialogue.TurnBuilder.constructor | processed_data/build_dataset_adult.py:38-41 | no turns and no speaker |
| Dialogue.TurnBuilder.Flush | processed_data/build_dataset_adult.py:43-54 | the pending turn is emitted, if any, and the speaker forgotten |
| Dialogue.TurnBuilder.Open | processed_data/build_dataset_adult.py:61-73 | a tag line flushes, then takes the tagged speaker, note and inline text |
| Dialogue.TurnBuilder.Continue | processed_data/build_dataset_adult.py:74-75 | another line is kept only while a speaker is open |
| Dialogue.TurnsStart | processed_data/build_dataset_adult.py:38-41 | the loop starts idle with no turns |
| Dialogue.TurnsAdvance | processed_data/build_dataset_adult.py:56-75 | one pass of the loop is one step |
| Dialogue.BlankLine | processed_data/build_dataset_adult.py:57-59 | a blank line changes nothing |
| Dialogue.TagLine | processed_data/build_dataset_adult.py:61-73 | a tag line flushes the pending speaker and opens the tagged one |
| Dialogue.TextLine | processed_data/build_dataset_adult.py:74-75 | any other line joins the open speaker's text, or is dropped |
| Dialogue.QuietStep | processed_data/build_dataset_adult.py:57-75 | a line that emits no turn keeps the emitted turns and moves the loop on |
| Dialogue.ParseTurns | processed_data/build_dataset_adult.py:37-77 | the method computes `_parse_turns` |
| Dialogue.Feed | processed_data/build_dataset_adult.py:56-75 | one line of the loop keeps the loop's state in step with the function over the whole loop |
| Dialogue.TurnsEnd | processed_data/build_dataset_adult.py:76-77 | after the last line the final flush completes the turns |
| Dialogue.FlushedWellFormed | processed_data/build_dataset_adult.py:45-51 | a flushed turn has trimmed non-empty text and a non-empty note if any |
| Dialogue.RunWellFormed | processed_data/build_dataset_adult.py:56-75 | every turn the loop emits is well formed |
| Dialogue.TurnsWellFormed | processed_data/build_dataset_adult.py:37-77 | every returned turn has trimmed non-empty text and, if any, a non-empty note |
| Dialogue.RunTurnCount | processed_data/build_dataset_adult.py:56-76 | turns emitted plus the open speaker never exceed the speakers opened |
| Dialogue.TurnsAtMostTags | processed_data/build_dataset_adult.py:37-77 | there are never more turns than tag lines |
| Dialogue.RunCons | processed_data/build_dataset_adult.py:56-75 | the loop over `line :: rest` is one step then the rest |
| Dialogue.StepIdle | processed_data/build_dataset_adult.py:74-75 | with no open speaker a non-tag line is dropped |
| Dialogue.StepContinuation | processed_data/build_dataset_adult.py:74-75 | with an open speaker a non-tag line is appended, trimmed |
| Dialogue.IdleSkips | processed_data/build_dataset_adult.py:74-75 | with no speaker open a line that is not a tag line is skipped |
| Dialogue.DropFirst | processed_data/build_dataset_adult.py:74-75 | a leading line that is not a tag line does not change the loop's result |
| Dialogue.LeadingLinesDropped | processed_data/build_dataset_adult.py:74-75 | lines before the first tag line are ignored |
| Dialogue.StripAll | processed_data/build_dataset_adult.py:57 | one trimmed line per line |
| Dialogue.ContinuationLines | processed_data/build_dataset_adult.py:74-75 | non-tag lines all join the open speaker's buffer and emit nothing |
| Dialogue.OneSpeaker | processed_data/build_dataset_adult.py:43-77 | a tag line followed by non-tag lines makes at most one turn: its inline text and the trimmed lines run together |
| Dialogue.IdleOpens | processed_data/build_dataset_adult.py:61-73 | from no speaker a tag line opens its speaker and emits nothing |
| Dialogue.TurnsOfRun | processed_data/build_dataset_adult.py:76-77 | when the loop emits nothing the turns are the final flush alone |
| ExcelFixed.StandardLabel | Data_Pipeline/excel_reader_fixed.py:113 | a standardized label is never longer than the original |
| ExcelFixed.LowerKeepsStripped | Data_Pipeline/excel_reader_fixed.py:113 | lower-casing a stripped label keeps it stripped |
| ExcelFixed.StandardLabelIdempotent | Data_Pipeline/excel_reader_fixed.py:113 | standardizing a label twice is standardizing it once |
| ExcelFixed.StandardizeRow | Data_Pipeline/excel_reader_fixed.py:100-116 | every label is standardized, in place and in order; cells are untouched |
| ExcelFixed.StandardizeRowIdempotent | Data_Pipeline/excel_reader_fixed.py:100-116 | standardized rows stay as they are |
| ExcelFixed.PatientIdOf | Data_Pipeline/excel_reader_fixed.py:129-141 | the id is never empty; with no usable id key it is "unknown" |
| ExcelFixed.OtherInfo | Data_Pipeline/excel_reader_fixed.py:194-198 | `other_info` holds only non-empty cells of columns outside the excluded keys |
| ExcelFixed.OtherInfoKeeps | Data_Pipeline/excel_reader_fixed.py:194-198 | every column not excluded and with a value is kept |
| ExcelFixed.CollectOtherInfo | Data_Pipeline/excel_reader_fixed.py:194-198 | the loop collects exactly `other_info` |
| ExcelFixed.ExtractPatientInfo | Data_Pipeline/excel_reader_fixed.py:118-203 | the method computes the id and demographics of a row, or raises when the age cell reads as an infinity |
| ExcelFixed.PatientIdColumn | Data_Pipeline/excel_reader_fixed.py:132-137 | a row with a usable `patient_id` cell is filed under its text |
| ExcelFixed.IdColumnFallback | Data_Pipeline/excel_reader_fixed.py:132-137 | a missing or empty `patient_id` passes the lookup on to `id` |
| ExcelFixed.Filed | Data_Pipeline/excel_reader_fixed.py:329-354 | the filed patients form a well-formed ordered dictionary; rows that raise are skipped |
| ExcelFixed.ProcessRow | Data_Pipeline/excel_reader_fixed.py:335-345 | one row's id and record, or the OverflowError that skips it |
| ExcelFixed.ProcessExcelData | Data_Pipeline/excel_reader_fixed.py:315-357 | the method files every row that does not raise under its id and skips the others |
| ExcelFixed.FiledStep | Data_Pipeline/excel_reader_fixed.py:332-354 | one more row adds its entry to the earlier rows' dictionary, or leaves it when the row raises |
| ExcelFixed.RaisedRowSkipped | Data_Pipeline/excel_reader_fixed.py:332-354 | a row that raises leaves the dictionary built from the rows before it unchanged |
| ExcelFixed.AgeOverflowSkipsRow | Data_Pipeline/excel_reader_fixed.py:158-163 | a row whose first usable age cell reads as an infinity leaves the patients unchanged |
| ExcelFixed.FiledKeys | Data_Pipeline/excel_reader_fixed.py:332-354 | the keys are exactly the ids of the rows that do not raise |
| ExcelFixed.LastRowWins | Data_Pipeline/excel_reader_fixed.py:348-354 | the record under an id is that of the last row with that id that does not raise |
| ExcelFixed.PatientsOfRows | Data_Pipeline/excel_reader_fixed.py:315-357 | the id of every row that does not raise is a key and no other id is; each key holds the record of the last such row with it |
| ExcelReader.Mapped | Data_Pipeline/excel_reader.py:177-182 | the new labels are the old ones transformed one by one, same count and order |
| ExcelReader.MappedStep | Data_Pipeline/excel_reader.py:177-182 | one more label appends its new form to the new labels |
| ExcelReader.MappingKeys | Data_Pipeline/excel_reader.py:174-179 | the recorded mapping has exactly one key per stripped label and no other |
| ExcelReader.MappingValues | Data_Pipeline/excel_reader.py:174-179 | each stripped label is sent to the label it became |
| ExcelReader.MappingStep | Data_Pipeline/excel_reader.py:174-179 | one more label records its stripped form, overriding an earlier equal one |
| ExcelReader.ColumnMappingCovers | Data_Pipeline/excel_reader.py:170-185 | `column_mapping` covers exactly the stripped labels and sends each to its lower-cased form |
| ExcelReader.Reader.constructor | Data_Pipeline/excel_reader.py:98-112 | a new reader has recorded no column mapping |
| ExcelReader.Reader.StandardizeColumnNames | Data_Pipeline/excel_reader.py:158-188 | the labels come back stripped and lower-cased, and the reader records the mapping from stripped to lower-cased label |
| ExcelReader.ItemColumnCue | Data_Pipeline/excel_reader.py:79-85 | every listed item-column name contains `q` or `item` |
| ExcelReader.ItemColumnsAgree | Data_Pipeline/excel_reader.py:79-85 | every column this reader treats as a PHQ-9 item the fixed reader treats as one too |
| ExcelReader.FirstColumn | Data_Pipeline/excel_reader.py:202-207 | no cell iff none of the names is a column; otherwise the cell of one of them, empty or not |
| ExcelReader.PatientIdOf | Data_Pipeline/excel_reader.py:200-211 | the patient id is never empty |
| ExcelReader.EmptyIdColumnStops | Data_Pipeline/excel_reader.py:202-211 | an empty `patient_id` cell ends the search and gives "unknown", whatever `id` holds |
| ExcelReader.AgeValue | Data_Pipeline/excel_reader.py:228-244 | an age text without digits gives no age |
| ExcelReader.AgeFromText | Data_Pipeline/excel_reader.py:233-238 | the first run of digits of an age text is the age |
| ExcelReader.OtherInfo | Data_Pipeline/excel_reader.py:253-264 | `other_info` holds only non-empty cells of columns that are neither a field name nor a PHQ-9 item |
| ExcelReader.OtherInfoKeeps | Data_Pipeline/excel_reader.py:253-264 | every other column with a value is kept |
| ExcelReader.CollectOtherInfo | Data_Pipeline/excel_reader.py:253-264 | the loop collects exactly `other_info` |
| ExcelReader.FindFirstColumn | Data_Pipeline/excel_reader.py:202-207 | the loop stops at the first present column |
| ExcelReader.ExtractDemographics | Data_Pipeline/excel_reader.py:190-267 | the method computes the id, the demographic fields and `other_info` of a row |
| ExcelReader.PatientsOfFrame | Data_Pipeline/excel_reader.py:390-448 | the keys are exactly the ids of the rows that do not raise, and each holds the record of the last such row with that id |
| ExcelReader.ProcessExcelData | Data_Pipeline/excel_reader.py:390-448 | the method files every row that does not raise under its id, skips the others and records the column mapping |
| ExcelReader.ProcessFrameRow | Data_Pipeline/excel_reader.py:409-439 | one row of the loop yields the id and record it is filed under, or the OverflowError that skips it |
| ExcelReader.ItemOverflowSkipsRow | Data_Pipeline/excel_reader.py:291-299 | a row with an item cell that reads as an infinity leaves the patients unchanged |
| ExcelReader.ItemOverflowRaises | Data_Pipeline/excel_reader.py:291-299 | such a row raises whatever else it holds |
| FileTitle.MoreRuns | processed_data/build_dataset_adult.py:146 | the greedy `(?:，\d+)*` takes only non-empty digit runs |
| FileTitle.MoreRunsFit | processed_data/build_dataset_adult.py:146 | the runs taken never exceed the text they come from |
| FileTitle.SplitStem | processed_data/build_dataset_adult.py:146 | a match has at least one id run, every run is digits only, and the title is non-empty |
| FileTitle.SplitIdTail | processed_data/build_dataset_adult.py:146 | after a first digit run, a match has a non-empty title and every id run is digits only |
| FileTitle.FixedSuffix | processed_data/build_dataset_adult.py:154 | the gender-and-age suffix only matches after whitespace |
| FileTitle.GenderSuffix | processed_data/build_dataset_adult.py:161 | the gender suffix only matches after whitespace |
| FileTitle.LazySplit | processed_data/build_dataset_adult.py:154-161 | the lazy name group ends at the first position from which the suffix matches, and no earlier |
| FileTitle.ReadTitle | processed_data/build_dataset_adult.py:151-168 | `title_raw` is the trimmed title, and an age is only read together with a gender |
| FileTitle.Ids | processed_data/build_dataset_adult.py:150 | one id per digit run |
| FileTitle.ParseFileTitle | processed_data/build_dataset_adult.py:145-168 | a parsed name always carries at least one id |
| FileTitle.TitleAccepted | processed_data/build_dataset_adult.py:146-148 | a stem is accepted exactly when it starts with a digit and has a second character; otherwise the function raises |
| FileTitle.FixedSkip | processed_data/build_dataset_adult.py:154 | the lazy name group cannot end inside a run without whitespace |
| FileTitle.GenderSkip | processed_data/build_dataset_adult.py:161 | the lazy name group cannot end inside a run without whitespace |
| FileTitle.BareTitle | processed_data/build_dataset_adult.py:167 | a title without whitespace is a bare name, with no gender or age |
| FileTitle.FixedSuffixOf | processed_data/build_dataset_adult.py:154 | ` 男 35岁` reads as gender and age |
| FileTitle.FixedTitle | processed_data/build_dataset_adult.py:154-159 | `name 男 35岁` gives back the name, the gender and the age |
| FileTitle.GenderSuffixOf | processed_data/build_dataset_adult.py:154-161 | a bare gender suffix fails the first pattern and matches the second |
| FileTitle.GenderTitle | processed_data/build_dataset_adult.py:161-165 | `name 男` gives back the name and the gender, no age |
| FileTitle.SplitSingleId | processed_data/build_dataset_adult.py:146 | one digit run before a title splits there |
| FileTitle.SingleIdStem | processed_data/build_dataset_adult.py:145-168 | one id written in decimal before a title comes back as that id |
| FileTitle.Decimals | processed_data/build_dataset_adult.py:150 | ids written in decimal are non-empty digit runs |
| FileTitle.MoreRunsStep | processed_data/build_dataset_adult.py:146 | a `，` and a digit run are taken as one more run |
| FileTitle.MoreRunsOfIds | processed_data/build_dataset_adult.py:146 | ids written after `，` are read back as their decimal runs |
| FileTitle.IdsOfDecimals | processed_data/build_dataset_adult.py:150 | `int` of each decimal run gives back the id: the id list round-trips |
| FileTitle.SplitIdList | processed_data/build_dataset_adult.py:146 | a written id list splits exactly at its end |
| FileTitle.IdListStem | processed_data/build_dataset_adult.py:145-168 | ids written in decimal and separated by `，` come back in order, with the trimmed title read after them |
| FileTitle.NameGenderAgeExample | processed_data/build_dataset_adult.py:145-159 | illustration, not a general property: `41江凤敏 男 35岁` gives id 41, name 江凤敏, gender 男, age 35 |
| FileTitle.IdListExample | processed_data/build_dataset_adult.py:145-168 | illustration, not a general property: `3，7王小明` is ids 3 and 7 then the bare name 王小明, the case `BareIdList` reads |
| FileTitle.BareIdList | processed_data/build_dataset_adult.py:145-168 | ids written with `，` and then a name without whitespace give back the ids in order and the name as the whole title, with no gender or age |
| FileTitle.ParseOfSplit | processed_data/build_dataset_adult.py:145-168 | the ids are read from the split's runs and the metadata from its trimmed title |
| FileTitle.SplitRestAtTitle | processed_data/build_dataset_adult.py:146 | with a non-space character left after the id list, nothing is given back |
| FileTitle.LazySkipRun | processed_data/build_dataset_adult.py:154-161 | positions where the suffix does not match do not change where the lazy name ends |
| FileTitle.RunsLengthOfIds | processed_data/build_dataset_adult.py:146 | the runs read from ids written after `，` take exactly the characters of that text |
| FileTitle.SplitAtTitle | processed_data/build_dataset_adult.py:146 | when a non-space character follows the id list, the title starts right there |
| FileTitle.SplitIdTailRest | processed_data/build_dataset_adult.py:146 | after the first run, the split is made on the text left after the further `，`-runs |
| FileTitle.SplitRest | processed_data/build_dataset_adult.py:146 | the title after the id list is never empty, and the runs stay non-empty digit runs |
| FileTitle.GiveBack | processed_data/build_dataset_adult.py:146 | backtracking gives up one digit or one `，`-run so that the title is non-empty, keeping the runs non-empty digit runs |
| Keywords.SectionLabel | processed_data/build_dataset_adult.py:83 | a section label ends with a colon inside the text |
| Keywords.TerminatorEnd | processed_data/build_dataset_adult.py:83 | a terminator starts with a newline and ends after it |
| Keywords.LazyFrom | processed_data/build_dataset_adult.py:83 | the lazy keyword group ends at a newline before the match end |
| Keywords.NewlineFrom | processed_data/build_dataset_adult.py:83 | a match found after the greedy `\s*\n` is well placed: the label, then the group between two newlines |
| Keywords.MatchAt | processed_data/build_dataset_adult.py:83 | a match at a position is well placed and starts there |
| Keywords.SearchFrom | processed_data/build_dataset_adult.py:83 | `re.search` finds a well-placed match, and none starts earlier |
| Keywords.StripChars | processed_data/build_dataset_adult.py:86 | `strip(" ，、")` leaves no such character at either end |
| Keywords.SplitOnSeparators | processed_data/build_dataset_adult.py:86 | `re.split(r"[、，]")` gives at least one piece and no piece holds a separator |
| Keywords.KeepKeywords | processed_data/build_dataset_adult.py:86 | filtering never adds pieces |
| Keywords.DropLabel | processed_data/build_dataset_adult.py:92 | dropping the label never lengthens the body |
| Keywords.NoHeader | processed_data/build_dataset_adult.py:80-93 | without 关键词 there are no keywords and the body is the whole text, trimmed and without a section label |
| Keywords.StripCharsNonEmpty | processed_data/build_dataset_adult.py:86 | a piece with a character outside the trimmed set stays non-empty |
| Keywords.StripCharsKeeps | processed_data/build_dataset_adult.py:86 | trimming keeps only characters of the piece |
| Keywords.KeptPiece | processed_data/build_dataset_adult.py:86 | every piece kept is a proper keyword |
| Keywords.KeptPieceNonEmpty | processed_data/build_dataset_adult.py:86 | a non-blank piece without separators is not emptied by the trimming |
| Keywords.KeepKeywordsAreKeywords | processed_data/build_dataset_adult.py:86 | every kept piece is a proper keyword |
| Keywords.KeywordsWellFormed | processed_data/build_dataset_adult.py:83-88 | keywords, when there are any, form a non-empty list of proper keywords: non-empty, no separator inside, no space at either end |
| Keywords.DropLabelOfLabelled | processed_data/build_dataset_adult.py:92 | a leading `文字记录`/`场景` label, its colon and the whitespace after it are dropped, and only those |
| Keywords.DropLabelOfUnlabelled | processed_data/build_dataset_adult.py:92 | a body without a section label keeps its start |
| Keywords.LazySkip | processed_data/build_dataset_adult.py:83 | the lazy group cannot end before a newline |
| Keywords.LazyStep | processed_data/build_dataset_adult.py:83 | a character other than a newline cannot end the lazy keyword group |
| Keywords.BlankLineEnd | processed_data/build_dataset_adult.py:83 | a blank line ends the header right after it |
| Keywords.HeaderMatch | processed_data/build_dataset_adult.py:83 | a header `关键词：`, a keyword line, a blank line, at the start of the text, is matched exactly |
| Keywords.HeaderGroup | processed_data/build_dataset_adult.py:83 | a keyword line up to a blank line is the lazy group, and the match ends after the blank line |
| Keywords.HeaderAtStart | processed_data/build_dataset_adult.py:83 | `关键词`, a colon and one newline at the start of the text are matched there with that group |
| Keywords.HeaderKeywords | processed_data/build_dataset_adult.py:83-88 | such a header yields the keywords of its line |
| Keywords.CutOutPrefix | processed_data/build_dataset_adult.py:89-91 | cutting a leading match leaves the rest after a newline, trimmed |
| Keywords.BodyOfLeadingMatch | processed_data/build_dataset_adult.py:89-92 | a header matched at the start is cut from the front of the body |
| Keywords.HeaderBody | processed_data/build_dataset_adult.py:89-92 | after such a header the body is the rest of the text, trimmed and without a section label |
| LabelSpeakers.MatchBracket | processed_data/label_speakers.py:26-31 | the text after a bracket tag comes back trimmed |
| LabelSpeakers.BracketLabel | processed_data/label_speakers.py:33-46 | `D…` tokens are the doctor and only they; `P…` tokens with a family word are family; a patient label has no family word and either says 患者 or not 孩子; any other token gives no label |
| LabelSpeakers.RoleLineFrom | processed_data/label_speakers.py:113-116 | a role-line hit is one of the three labels |
| LabelSpeakers.RoleLineLabel | processed_data/label_speakers.py:10-14 | a role-line hit is one of the three labels |
| LabelSpeakers.MatchRoleLine | processed_data/label_speakers.py:112-116 | the pattern loop returns the label of the first pattern the line matches |
| LabelSpeakers.Classify | processed_data/label_speakers.py:105-118 | a role-marker line carries one of the three labels |
| LabelSpeakers.Kinds | processed_data/label_speakers.py:104 | one kind per line |
| LabelSpeakers.FoldStep | processed_data/label_speakers.py:104-130 | the pass over one more line is one more loop step |
| LabelSpeakers.TextFeed | processed_data/label_speakers.py:123-130 | a non-blank line under a current role is tagged with it and trimmed, any other line is copied as is, as one text fold step |
| LabelSpeakers.BracketFeed | processed_data/label_speakers.py:105-110 | a relabelled bracket line is appended, marks a change when it differs, and counts as a hit, as one fold step |
| LabelSpeakers.PlainFeed | processed_data/label_speakers.py:112-130 | without a bracket tag, a role line sets the role and counts as a hit, any other line is text, as one fold step |
| LabelSpeakers.ClassifyBracket | processed_data/label_speakers.py:105-106 | a line the bracket pattern relabels is read as a bracket line |
| LabelSpeakers.ExplicitFeed | processed_data/label_speakers.py:105-130 | the loop body updates output, role, changed flag and hit count as one fold step |
| LabelSpeakers.ApplyExplicitMapping | processed_data/label_speakers.py:98-132 | the method returns the output, changed flag and hit count of the explicit pass |
| LabelSpeakers.FoldCounts | processed_data/label_speakers.py:104-132 | role lines are dropped and every other line is kept; hits count bracket tags plus role lines |
| LabelSpeakers.FoldOutLength | processed_data/label_speakers.py:104-130 | the output plus the dropped role lines account for every line read |
| LabelSpeakers.FoldHits | processed_data/label_speakers.py:104-130 | the hit count is the bracket tags plus the role lines |
| LabelSpeakers.FoldHitCount | processed_data/label_speakers.py:104-130 | every line that is not plain text counts one hit |
| LabelSpeakers.HitCountSplit | processed_data/label_speakers.py:109-120 | the non-text lines are exactly the bracket lines and the role lines |
| LabelSpeakers.StepHits | processed_data/label_speakers.py:109-120 | one step counts a hit exactly when the line is not plain text |
| LabelSpeakers.ExplicitCounts | processed_data/label_speakers.py:98-132 | the output has one line per input line that is not a role line, and the hits are the bracket tags plus the role lines |
| LabelSpeakers.NotRoleLine | processed_data/label_speakers.py:10-14 | a line starting with `[` matches no role-line pattern |
| LabelSpeakers.TaggedIsPlain | processed_data/label_speakers.py:26-125 | a tagged line matches neither a bracket tag nor a role line |
| LabelSpeakers.ClassifyPlainOutputs | processed_data/label_speakers.py:105-130 | whatever the pass emits for a line is plain or copied text |
| LabelSpeakers.StepOutputs | processed_data/label_speakers.py:105-130 | every line one step adds keeps a property that holds of its inputs and of tagged lines, and the role stays a label |
| LabelSpeakers.FoldOutputs | processed_data/label_speakers.py:104-132 | every output line keeps such a property and the current role is always a label |
| LabelSpeakers.TextLinesUnchanged | processed_data/label_speakers.py:123-130 | lines that match nothing, with no role yet, are copied unchanged with no hits |
| LabelSpeakers.ExplicitIdempotent | processed_data/label_speakers.py:98-132 | running the explicit pass on its own output matches nothing, changes nothing and counts no hits |
| LabelSpeakers.SmallNumberThen | processed_data/label_speakers.py:57 | `\d{1,2}` followed by a given character takes one or two digits |
| LabelSpeakers.ParseNatBelow | processed_data/label_speakers.py:63 | at most three digits give a number below 1000 |
| LabelSpeakers.AgeAt | processed_data/label_speakers.py:63-67 | an age match at a position starts with a digit and is below 1000 |
| LabelSpeakers.AgeFrom | processed_data/label_speakers.py:63-67 | the search finds an age iff some position matches, and it is the leftmost match |
| LabelSpeakers.AgeFromNext | processed_data/label_speakers.py:63-67 | with no match at a position, the leftmost match from the next position on is the leftmost from it |
| LabelSpeakers.AgeFromStem | processed_data/label_speakers.py:62-69 | `extract_age_from_stem` gives an age below 1000 exactly when the stem has an age pattern |
| LabelSpeakers.SepRun | processed_data/label_speakers.py:74 | the greedy separator run takes every leading separator and stops at the first other character |
| LabelSpeakers.ChooseNonDoctorLabel | processed_data/label_speakers.py:77-84 | the non-doctor label is family exactly when the line has a family cue or the age is below 18, otherwise patient; never the doctor |
| LabelSpeakers.Skips | processed_data/label_speakers.py:87-95 | one skip flag per line |
| LabelSpeakers.FirstUnskipped | processed_data/label_speakers.py:141-146 | the first dialogue line is the first line not skipped, and there is none only when all are skipped |
| LabelSpeakers.HeuristicFoldStep | processed_data/label_speakers.py:156-174 | the tagging pass over one more line is one more loop step |
| LabelSpeakers.FindFirstDialogue | processed_data/label_speakers.py:139-146 | the first loop finds the first line not skipped |
| LabelSpeakers.HeuristicFeed | processed_data/label_speakers.py:157-174 | the loop body copies or tags one line and flips the role after a tag |
| LabelSpeakers.TagLines | processed_data/label_speakers.py:155-176 | the tagging loop computes the tagging fold |
| LabelSpeakers.ApplyHeuristicMapping | processed_data/label_speakers.py:135-176 | the method returns what the heuristic pass computes |
| LabelSpeakers.FoldShape | processed_data/label_speakers.py:155-176 | the tagging pass keeps the number of lines and counts the tagged ones |
| LabelSpeakers.FoldLength | processed_data/label_speakers.py:156-176 | the tagging pass emits exactly one line per line read |
| LabelSpeakers.FoldTagCount | processed_data/label_speakers.py:155-168 | the turn count is the number of lines not skipped |
| LabelSpeakers.FoldRole | processed_data/label_speakers.py:155-174 | the current role is the starting role flipped once per tagged turn |
| LabelSpeakers.StepRole | processed_data/label_speakers.py:160-174 | a tagged line flips the role and counts one turn; a skipped line changes neither |
| LabelSpeakers.RoleKept | processed_data/label_speakers.py:160-174 | one step keeps the current role equal to the start role flipped once per tagged turn |
| LabelSpeakers.StepLine | processed_data/label_speakers.py:157-167 | one step keeps the lines emitted so far and appends the copied or tagged line |
| LabelSpeakers.FoldLine | processed_data/label_speakers.py:156-176 | output line j is the input copied when skipped, otherwise tagged with the role of its turn |
| LabelSpeakers.TagCountSkipped | processed_data/label_speakers.py:161-163 | skipped lines do not advance the turn count |
| LabelSpeakers.RolesAlternate | processed_data/label_speakers.py:171-174 | the roles alternate between the doctor and the non-doctor label, turn by turn |
| LabelSpeakers.HeuristicLines | processed_data/label_speakers.py:135-176 | the heuristic keeps the line count, copies every skipped line, tags every other with its role and trimmed text, and changes the text iff it tags a line |
| LabelSpeakers.HeuristicFirstTurn | processed_data/label_speakers.py:148-153 | the first dialogue line is tagged non-doctor exactly when it addresses the doctor |
| LabelSpeakers.TagCountMonotone | processed_data/label_speakers.py:169 | the turn count never decreases |
| LabelSpeakers.FoldAlternates | processed_data/label_speakers.py:171-174 | consecutive tagged lines have different roles |
| LabelSpeakers.DialogueStarts | processed_data/label_speakers.py:141-146 | a line not skipped means the dialogue has started at or before it |
| LabelSpeakers.HeuristicRoleIsLabel | processed_data/label_speakers.py:152-174 | every heuristic tag is the doctor or the chosen non-doctor label |
| LabelSpeakers.HeuristicAlternates | processed_data/label_speakers.py:156-174 | two tagged lines with only skipped lines between them carry different labels |
| LabelSpeakers.HeuristicNoDialogue | processed_data/label_speakers.py:148-149 | the input comes back unchanged with no tags exactly when every line is skipped |
| LabelSpeakers.NoHitsAllText | processed_data/label_speakers.py:104-130 | no hits means no bracket tag and no role line |
| LabelSpeakers.ExplicitNoHits | processed_data/label_speakers.py:98-132 | without a hit the explicit pass returns its input unchanged |
| LabelSpeakers.StrategyChoice | processed_data/label_speakers.py:183-195 | with explicit hits the explicit output is final; without them the heuristic labels the original lines; the two never mix |
| LabelSpeakers.LabelStats.constructor | processed_data/label_speakers.py:214-215 | all counters start at zero |
| LabelSpeakers.LabelStats.ProcessFile | processed_data/label_speakers.py:179-210 | the text written back and each counter's increment for one transcript |
| LabelSpeakers.LabelStats.Record | processed_data/label_speakers.py:197-210 | the file is written back only when changed, keeping a final newline, and the counters grow by this file's counts |
| LabelSpeakers.LabelTranscript | processed_data/label_speakers.py:180-195 | labelling runs the explicit pass, then the heuristic only when the explicit pass found nothing |
| MergerOutput.FormattedSnoc | Data_Pipeline/data_merger.py:202-209 | one more raw turn adds one formatted turn numbered by its position |
| MergerOutput.FlattenTurns | Data_Pipeline/data_merger.py:199-209 | one turn per raw turn of the session's dialogues in order; turn `k` takes its own id or `k + 1`, role "unknown" and content "" when absent |
| MergerOutput.DateOf | Data_Pipeline/data_merger.py:224 | a non-empty session date wins; otherwise the spreadsheet's visit date |
| MergerOutput.SessionsOf | Data_Pipeline/data_merger.py:182-191 | a patient's own sessions when there are any, else exactly one default session |
| MergerOutput.VisitRecords | Data_Pipeline/data_merger.py:194-232 | one visit record per session |
| MergerOutput.BeforeAsymmetric | Data_Pipeline/data_merger.py:235 | the sort key order is asymmetric |
| MergerOutput.BeforeSplits | Data_Pipeline/data_merger.py:235 | the sort key order is a weak order: any record falls after `a` or before `c` when `a` precedes `c` |
| MergerOutput.InsertVisit | Data_Pipeline/data_merger.py:235 | stable insertion adds exactly the one record |
| MergerOutput.SortVisits | Data_Pipeline/data_merger.py:235 | the sort is a permutation of the records |
| MergerOutput.InsertVisitSorted | Data_Pipeline/data_merger.py:235 | inserting into a sorted list keeps it sorted |
| MergerOutput.SortVisitsSorted | Data_Pipeline/data_merger.py:235 | the sort's result is ordered by `(visit_type != "initial", session_id)` |
| MergerOutput.BuildLongitudinalData | Data_Pipeline/data_merger.py:163-237 | the method computes the sorted visit records of a patient |
| MergerOutput.LongitudinalShape | Data_Pipeline/data_merger.py:185-235 | one record per session (or the default one), a permutation of the per-session records, sorted, initial visits first |
| MergerOutput.DefaultVisit | Data_Pipeline/data_merger.py:185-191 | a patient without sessions gets one "initial" visit `{id}_visit_1` with all its dialogues' turns |
| MergerOutput.DemographicsOut | Data_Pipeline/data_merger.py:255-277 | the demographics are None exactly when there is no spreadsheet record or all five fields are None; otherwise 1 to 5 fields |
| MergerOutput.PatientRecordFor | Data_Pipeline/data_merger.py:253-281 | the loop body builds one patient's final record |
| MergerOutput.NextRecord | Data_Pipeline/data_merger.py:252-283 | the record the loop appends for the `i`-th merged patient is that patient's entry of the final format |
| MergerOutput.ConvertToFinalFormat | Data_Pipeline/data_merger.py:239-284 | the method builds one final record per merged patient |
| MergerOutput.FinalFormatShape | Data_Pipeline/data_merger.py:251-281 | one record per merged patient in merged order, with the dataset id, the patient id and at least one visit |
| MergerOutput.Increment | Data_Pipeline/data_merger.py:373-374 | bumping a count keeps the dictionary well formed |
| MergerOutput.Tally | Data_Pipeline/data_merger.py:369-374 | counting more elements into a distribution keeps it well formed |
| MergerOutput.TallyBy | Data_Pipeline/data_merger.py:373-374 | a distribution is a well-formed ordered dictionary |
| MergerOutput.TallyStep | Data_Pipeline/data_merger.py:358-374 | one more keyed element bumps its key's count; one without a key leaves the distribution unchanged |
| MergerOutput.TallyAppend | Data_Pipeline/data_merger.py:363-374 | counting two lists in a row is counting their concatenation |
| MergerOutput.PutCountSum | Data_Pipeline/data_merger.py:360-374 | adding one to a key's count adds one to the total |
| MergerOutput.TallyTotal | Data_Pipeline/data_merger.py:354-379 | counting adds the number of keyed elements to a distribution's total |
| MergerOutput.TallyCount | Data_Pipeline/data_merger.py:354-379 | counting adds to each key's count the number of elements with that key |
| MergerOutput.AllVisitsCount | Data_Pipeline/data_merger.py:365-367 | the visits of all records are as many as the summed visit counts |
| MergerOutput.CountAtMost | Data_Pipeline/data_merger.py:354-379 | a count of elements never exceeds their number |
| MergerOutput.GendersWithin | Data_Pipeline/data_merger.py:356-360 | records counted under a gender all have demographics |
| MergerOutput.SumByAppend | Data_Pipeline/data_merger.py:354-379 | sums over a concatenation add |
| MergerOutput.CountWhereAppend | Data_Pipeline/data_merger.py:354-379 | counts over a concatenation add |
| MergerOutput.TurnsPerRecord | Data_Pipeline/data_merger.py:377-379 | the turns over all visits are the sum over records of their visits' turns |
| MergerOutput.CountAllKeyed | Data_Pipeline/data_merger.py:373-374 | every visit has a visit type, `"unknown"` by default, so every visit is counted |
| MergerOutput.AllVisitsStep | Data_Pipeline/data_merger.py:354-369 | record `i`'s visits follow the visits of the records before it |
| MergerOutput.SumByStep | Data_Pipeline/data_merger.py:365-367 | one more element adds its own amount to a sum |
| MergerOutput.CountWhereStep | Data_Pipeline/data_merger.py:357-358 | one more element adds one to a count exactly when it qualifies |
| MergerOutput.VisitTotals | Data_Pipeline/data_merger.py:344-379 | one patient per record; the visit-type counts add up to the total visits; PHQ-9 visits are among them |
| MergerOutput.TurnTotals | Data_Pipeline/data_merger.py:377-379 | the turn total is the sum over records of their visits' turns |
| MergerOutput.GenderTotals | Data_Pipeline/data_merger.py:356-360 | gender counts stay within the records with demographics, themselves within all records |
| MergerOutput.VisitTypeCount | Data_Pipeline/data_merger.py:372-374 | each visit type counts exactly the visits of that type |
| MergerOutput.CountVisits | Data_Pipeline/data_merger.py:369-379 | the visit loop adds the PHQ-9 visits, counts the visit types and adds the turns of one record |
| MergerOutput.CountRecord | Data_Pipeline/data_merger.py:356-360 | one record adds to the demographics count and, with a truthy gender, that gender's count |
| MergerOutput.CountRecordVisits | Data_Pipeline/data_merger.py:363-379 | the per-visit counters after one more record's visits |
| MergerOutput.VisitCountersStep | Data_Pipeline/data_merger.py:363-379 | the PHQ-9 visit count, the tally by visit type and the turn total over one more record add that record's visits to the earlier ones |
| MergerOutput.GenerateStatistics | Data_Pipeline/data_merger.py:334-381 | the method computes all seven statistics of the records |
| OrderedMap.Empty | Data_Pipeline/excel_reader_fixed.py:329 | a new dictionary has no keys |
| OrderedMap.Put | Data_Pipeline/excel_reader_fixed.py:348 | `d[k] = v` sets the entry; a new key is appended to the key order and an existing key keeps its place |
| OrderedMap.HasKey | Data_Pipeline/data_merger.py:81-87 | a key has an entry exactly when it is among the ordered keys |
| Phq9.BandOf | Data_Pipeline/excel_reader_fixed.py:303-305 | no band iff the total lies in none of them; otherwise the label of a band holding it |
| Phq9.Severity | Data_Pipeline/excel_reader_fixed.py:293-313 | a negative total is "Invalid" and a total above 27 is "Severe" |
| Phq9.SeverityBands | Data_Pipeline/excel_reader_fixed.py:40-46 | the bands give Minimal 0-4, Mild 5-9, Moderate 10-14, Moderately severe 15-19, Severe from 20, and "Unknown" never occurs |
| Phq9.SeverityMonotone | Data_Pipeline/excel_reader.py:368-388 | a higher total never gets a milder label |
| Phq9.FirstDigit | Data_Pipeline/excel_reader.py:362-366 | the first ASCII digit of a label, with none before it |
| Phq9.ItemNumber | Data_Pipeline/excel_reader.py:352-366 | a label without digits has item number 0 |
| Phq9.ItemNumberOf | Data_Pipeline/excel_reader.py:352-366 | a label whose first digit run is `n` written in decimal has item number `n` |
| Phq9.LeadWithoutDigits | Data_Pipeline/excel_reader_fixed.py:264 | the first digit is the one right after a lead without digits |
| Phq9.PhqColumnNumber | Data_Pipeline/excel_reader_fixed.py:262-265 | every `phq9_<n>` label has item number 9, taken from the `9` of `phq9` |
| Phq9.InsertBy | Data_Pipeline/excel_reader_fixed.py:267 | inserting adds exactly the one element |
| Phq9.SortBy | Data_Pipeline/excel_reader_fixed.py:267 | sorting is a permutation of its input |
| Phq9.InsertBySorted | Data_Pipeline/excel_reader_fixed.py:267 | inserting into a sorted list keeps it sorted |
| Phq9.SortBySorted | Data_Pipeline/excel_reader_fixed.py:267 | the items come out sorted by item number |
| Phq9.WithKeyAppend | Data_Pipeline/excel_reader_fixed.py:267 | the elements of one key in a concatenation are those of each part, in order |
| Phq9.InsertByWithKey | Data_Pipeline/excel_reader_fixed.py:267 | inserting places the element after the others of its key |
| Phq9.InsertPastWithKey | Data_Pipeline/excel_reader_fixed.py:267 | moving past a last element of greater key keeps the per-key order of an insertion |
| Phq9.SortByStable | Data_Pipeline/excel_reader_fixed.py:267 | `sorted` is stable: the elements of each item number keep their column order |
| Phq9.SortByTies | Data_Pipeline/excel_reader_fixed.py:267 | when all item numbers tie, sorting changes nothing |
| Phq9.TotalInsert | Data_Pipeline/excel_reader_fixed.py:271 | inserting adds the element's score to the sum |
| Phq9.SortByTotal | Data_Pipeline/excel_reader_fixed.py:267-271 | sorting does not change the sum |
| Phq9.Scores | Data_Pipeline/excel_reader_fixed.py:268 | the scores of the items, one per item, in order |
| Phq9.SumIsTotal | Data_Pipeline/excel_reader_fixed.py:271 | `sum` of the score list is the total of the items |
| Phq9.AssessmentOf | Data_Pipeline/excel_reader_fixed.py:239-291 | no assessment iff there are no item scores and no total; without item scores the items are nine zeros and the total is the one read; the severity is always that of the total and the date is the one read |
| Phq9.ItemsAssessment | Data_Pipeline/excel_reader_fixed.py:260-271 | with item scores the total is their sum, there is one item per kept column, and the items are the scores sorted stably by item number |
| Phq9.PhqColumnsInColumnOrder | Data_Pipeline/excel_reader_fixed.py:262-268 | `phq9_<n>` columns all tie on item number, so their scores stay in column order |
| Phq9.ItemScore | Data_Pipeline/excel_reader_fixed.py:229-237 | a cell is kept as a score iff it is not empty, an integer, and within 0..3 |
| Phq9.KeptItems | Data_Pipeline/excel_reader_fixed.py:221-237 | only item columns with a score in 0..3 are kept |
| Phq9.NoKeptItems | Data_Pipeline/excel_reader_fixed.py:221-237 | a row without an item column holding a score keeps nothing |
| Phq9.ItemKept | Data_Pipeline/excel_reader_fixed.py:221-237 | every item column holding a score is kept |
| Phq9.CollectItems | Data_Pipeline/excel_reader.py:283-299 | the loop collects exactly the kept item scores; reading them with `int(float(value))`, as the older reader does, it raises on an item cell that reads as an infinity |
| Phq9.AnyItemStep | Data_Pipeline/excel_reader_fixed.py:219-237 | one more column has such an item exactly when it is one or an earlier column is |
| Phq9.ExtractAssessment | Data_Pipeline/excel_reader_fixed.py:205-291 | the method computes the assessment of the row, or the OverflowError raised on an item or on the total |
| Phq9.TotalOverflowRaises | Data_Pipeline/excel_reader_fixed.py:240-256 | with no item kept, a total cell that reads as an infinity before any readable total makes the row raise |
| Phq9.RaisedTotalKey | Data_Pipeline/excel_reader_fixed.py:240-256 | when the fixed reader raises, no item was kept and a total column overflows with no readable total before it |
| Phq9.NoAssessment | Data_Pipeline/excel_reader_fixed.py:240-256 | without item scores and without a readable total there is no assessment |
| Phq9.ItemNumberAt | Data_Pipeline/excel_reader.py:352-366 | the item number is the value of the digit run that starts at the first digit |
| Phq9.BandOfFirst | Data_Pipeline/excel_reader_fixed.py:303-305 | the loop over the bands stops at the first band holding the total and returns its label |
| Phq9.WithKeySingle | Data_Pipeline/excel_reader_fixed.py:267 | one element is kept by its key alone |
| Phq9.WithKeyLast | Data_Pipeline/excel_reader_fixed.py:267 | the elements of a key are those before the last one, then the last one if it has that key |
| PrefixIds.ExtractPrefixIds | processed_data/count_dialogue_prefix_ids.py:12-17 | the id list is empty exactly when the stem, after leading whitespace, does not start with a digit |
| PrefixIds.Values | processed_data/count_dialogue_prefix_ids.py:17 | one id per separated piece |
| PrefixIds.MoreIdsAtMark | processed_data/count_dialogue_prefix_ids.py:13 | whitespace and a separator mark hand the rest to the id after them |
| PrefixIds.IdsAfterMarkOf | processed_data/count_dialogue_prefix_ids.py:13-17 | an id written in decimal after a separator is read back |
| PrefixIds.MoreIdsStep | processed_data/count_dialogue_prefix_ids.py:13-17 | a separator and an id add exactly that id |
| PrefixIds.SepStart | processed_data/count_dialogue_prefix_ids.py:13 | a separator never starts with a digit |
| PrefixIds.TextStart | processed_data/count_dialogue_prefix_ids.py:13 | the written id list cannot run into the title |
| PrefixIds.MoreIdsOfText | processed_data/count_dialogue_prefix_ids.py:13-17 | the further ids are read back from their text, in order |
| PrefixIds.PrefixIdsOfStem | processed_data/count_dialogue_prefix_ids.py:12-17 | a stem written as whitespace, ids with any allowed separators, then a title that does not continue the list, gives back exactly those ids in order |
| PrefixIds.LeadingId | processed_data/count_dialogue_prefix_ids.py:13-17 | the first id after leading whitespace is read back |
| PrefixIds.IdsAfterBlank | processed_data/count_dialogue_prefix_ids.py:13-17 | blank text before a leading digit does not change the ids read |
| PrefixIds.IdsOfNumeral | processed_data/count_dialogue_prefix_ids.py:13-17 | a stem that opens with a numeral gives its value, then the further ids |
| PrefixIds.Missing | processed_data/count_dialogue_prefix_ids.py:26-30 | the files without ids are a subset of the scanned ones |
| PrefixIds.Repeat | processed_data/count_dialogue_prefix_ids.py:32-33 | a name appended once per occurrence |
| PrefixIds.Duplicates | processed_data/count_dialogue_prefix_ids.py:35-36 | `duplicates` holds exactly the ids seen more than once, with their counts |
| PrefixIds.AppendName | processed_data/count_dialogue_prefix_ids.py:32-33 | the inner loop appends the file name under each of its ids |
| PrefixIds.ScanFile | processed_data/count_dialogue_prefix_ids.py:27-33 | one file either joins the missing list or adds its ids to the list and its name under each id |
| PrefixIds.ScanDir | processed_data/count_dialogue_prefix_ids.py:20-48 | the method returns the statistics of the folder |
| PrefixIds.ParsedFiles | processed_data/count_dialogue_prefix_ids.py:41 | `parsed_file_count` is the number of files with ids |
| PrefixIds.AddNamesEntry | processed_data/count_dialogue_prefix_ids.py:32-33 | an id gets an entry iff it had one or is among the file's ids, and the name is appended once per occurrence |
| PrefixIds.AddNamesKeys | processed_data/count_dialogue_prefix_ids.py:32-33 | after one file, an id is a key iff it was one before or the file has it |
| PrefixIds.AddNamesValue | processed_data/count_dialogue_prefix_ids.py:32-33 | after one file, an id lists what it listed before and the file's name once per occurrence of the id |
| PrefixIds.CountSnoc | processed_data/count_dialogue_prefix_ids.py:32-33 | the last id of a list counts once more for its own value and for no other |
| PrefixIds.IndexEntries | processed_data/count_dialogue_prefix_ids.py:22-47 | `id_to_files` has a key for every id seen and no other, listing each file once per occurrence, in scan order |
| PrefixIds.NotSeenNoFiles | processed_data/count_dialogue_prefix_ids.py:32-33 | an id never seen lists no file |
| PrefixIds.ScanUnique | processed_data/count_dialogue_prefix_ids.py:35-46 | `unique_prefix_ids` is increasing, holds exactly the ids seen and has `unique_prefix_count` entries; the parsed and total counts match the files |
| PrefixIds.UniqueLists | processed_data/count_dialogue_prefix_ids.py:82-83 | one list per folder |
| PrefixIds.OverallIds | processed_data/count_dialogue_prefix_ids.py:80-84 | the overall list is the sorted set of the folders' ids |
| PrefixIds.ConcatMember | processed_data/count_dialogue_prefix_ids.py:81-83 | an id is in the merged list iff it is in one of the folders' lists |
| PrefixIds.OverallUnion | processed_data/count_dialogue_prefix_ids.py:80-84 | the overall list is increasing and is the union of the folders' distinct ids |
| ProcessScript.LastPieceIsTail | Data_Pipeline/process_script.py:45 | `split('：')[-1]` is the tail of the line after its last full-width colon, or the whole line when there is none, and holds no such colon |
| ProcessScript.LastPieceAfter | Data_Pipeline/process_script.py:45 | past the first colon, `split(c)[-1]` is the last piece of the rest |
| ProcessScript.TailAfter | Data_Pipeline/process_script.py:45 | a tail after the last colon of the rest is a tail after the last colon of the whole line |
| ProcessScript.LastPieceWhole | Data_Pipeline/process_script.py:45 | a line without a full-width colon is its own last piece |
| ProcessScript.Classify | Data_Pipeline/process_script.py:37-52 | a line is the doctor's exactly when it starts with 医生 or Doctor; the patient's exactly when it does not but starts with 病人 or Patient; any other line is all content |
| ProcessScript.LabelledContent | Data_Pipeline/process_script.py:41-49 | a labelled line's content is its tail after the last full-width colon, without such a colon; with no colon it is the whole line, label included |
| ProcessScript.ParseDialogue | Data_Pipeline/process_script.py:24-57 | the loop computes the messages of the text |
| ProcessScript.MessagesOfKept | Data_Pipeline/process_script.py:32-55 | one message per non-blank line, each the classification of that stripped line |
| ProcessScript.KeptStripped | Data_Pipeline/process_script.py:33-34 | the lines classified are stripped and not empty |
| ProcessScript.KeptAppend | Data_Pipeline/process_script.py:32-55 | the messages keep the order of the lines |
| ProcessScript.KeptOne | Data_Pipeline/process_script.py:33-34 | a single line is kept, stripped, exactly when it is not blank |
| ProcessScript.NameParts | Data_Pipeline/process_script.py:81-94 | only a `.txt` file gives a patient id and stage, and neither holds `_` |
| ProcessScript.NamePartsJoin | Data_Pipeline/process_script.py:87-91 | the stem is the id and the stage joined at `_` |
| ProcessScript.NamePartsOfStem | Data_Pipeline/process_script.py:87-91 | conversely a `.txt` stem with exactly one `_` gives its two sides |
| ProcessScript.InfoOf | Data_Pipeline/process_script.py:110 | `excel_data.get(p_id, {})`: the spreadsheet row of the id, or an empty record |
| ProcessScript.Dataset | Data_Pipeline/process_script.py:77-125 | the dataset is a well-formed ordered dictionary |
| ProcessScript.AddTextFile | Data_Pipeline/process_script.py:80-125 | one loop step adds the file as the dataset function says |
| ProcessScript.BuildDataset | Data_Pipeline/process_script.py:60-125 | the loop builds the dataset from the listed files |
| ProcessScript.DatasetEntry | Data_Pipeline/process_script.py:106-125 | a patient is present exactly when some file names it; its record holds its id, its spreadsheet row or nothing, and its files' visits in listing order |
| ProcessScript.SkippedFile | Data_Pipeline/process_script.py:81-94 | a file that is not `.txt` or whose stem does not split in two changes nothing |
| ProcessScript.AddFileKeys | Data_Pipeline/process_script.py:107-116 | adding a file keeps the keys so far and appends at most its patient |
| ProcessScript.DatasetKeepsOrder | Data_Pipeline/process_script.py:107-135 | patients keep the order of their first file, so the output lines follow it |
| SortedSet.Insert | processed_data/count_dialogue_prefix_ids.py:84 | inserting into an increasing list keeps it increasing and adds exactly the element |
| SortedSet.SortedDistinct | processed_data/count_dialogue_prefix_ids.py:45-84 | `sorted(set(xs))` is increasing and holds exactly the elements of `xs` |
| SortedSet.NoElements | processed_data/count_dialogue_prefix_ids.py:84 | a list is empty iff it has no elements |
| SortedSet.IncreasingUnique | processed_data/count_dialogue_prefix_ids.py:84 | an increasing list is determined by its elements |
| SortedSet.IncreasingCard | processed_data/count_dialogue_prefix_ids.py:44-45 | an increasing list has as many entries as distinct values |
| SortedSet.DistinctCount | processed_data/count_dialogue_prefix_ids.py:44-45 | the number of distinct values is the length of the sorted set |
| Table.Columns | Data_Pipeline/excel_reader_fixed.py:194 | the labels of a row, one per column, in column order |
| Table.Get | Data_Pipeline/excel_reader_fixed.py:133-134 | a cell is found iff the label is a column, and it is the cell of a column with that label |
| Table.CellInt | Data_Pipeline/excel_reader_fixed.py:250 | an empty cell gives no integer and an integer cell is itself |
| Table.CellText | Data_Pipeline/excel_reader_fixed.py:136 | `str` of a text cell is the text |
| Table.FirstPresent | Data_Pipeline/excel_reader_fixed.py:185-191 | no cell iff none of the keys is present with a value; otherwise the non-empty cell of one of the keys |
| Table.FirstPresentSkips | Data_Pipeline/excel_reader_fixed.py:185-191 | keys missing or empty before the first usable one are passed over |
| Table.FindFirst | Data_Pipeline/excel_reader_fixed.py:185-191 | the lookup loop stops at the first present, non-empty key |
| Table.FirstInt | Data_Pipeline/excel_reader_fixed.py:243-253 | no total iff no key is present with a value readable as an integer; otherwise the integer of one of the keys |
| Table.FindFirstInt | Data_Pipeline/excel_reader_fixed.py:243-253 | the lookup loop passes over keys whose cell does not parse and raises at an overflowing cell met first |
| Table.HitAtHits | Data_Pipeline/excel_reader_fixed.py:243-253 | a key the walk stops on with nothing stopping it earlier is reached |
| Table.HitKey | Data_Pipeline/excel_reader_fixed.py:243-253 | a walk that reaches such a key names it, with no stop before it |
| Text.TrimLeft | Data_Pipeline/process_script.py:33 | the leading whitespace run is removed and nothing else |
| Text.TrimRight | Data_Pipeline/process_script.py:33 | the trailing whitespace run is removed and nothing else |
| Text.Strip | Data_Pipeline/process_script.py:33 | `strip()` leaves no whitespace at either end and never lengthens the text |
| Text.StripEmpty | Data_Pipeline/process_script.py:33-34 | a line strips to nothing exactly when it is all whitespace |
| Text.StripIdempotent | Data_Pipeline/process_script.py:33 | stripping twice is stripping once |
| Text.StripIsSlice | Data_Pipeline/process_script.py:33 | `strip()` keeps a contiguous slice of the text |
| Text.StripKeepsPrefix | processed_data/label_speakers.py:52-55 | a prefix that neither starts nor ends with whitespace survives `strip()` |
| Text.Find | processed_data/build_dataset_adult.py:89 | `find` returns the first position where the text occurs, and finds it iff it occurs |
| Text.FindStep | processed_data/build_dataset_adult.py:89 | when the text does not start with the pattern, a first match in the text after its first character is a first match of the whole text one position later |
| Text.ContainsTransitive | Data_Pipeline/excel_reader_fixed.py:216-226 | a text inside a text inside a label is inside the label |
| Text.IndexOf | Data_Pipeline/process_script.py:45 | the first occurrence of a character, with none before it; none iff it does not occur |
| Text.LastIndexOf | Data_Pipeline/txt_reader.py:320-330 | the last occurrence of a character, with none after it; none iff it does not occur |
| Text.Split | Data_Pipeline/process_script.py:45-90 | `split(c)` gives at least one piece and no piece holds `c` |
| Text.JoinSplit | Data_Pipeline/process_script.py:45-90 | joining the pieces of `split(c)` with `c` gives back the text |
| Text.ConcatAppend | processed_data/anonymize_names.py:91 | `"".join` of two lists is the join of each, concatenated |
| Text.SplitLines | processed_data/label_speakers.py:181 | `splitlines()` pieces hold no line break |
| Text.SplitLinesKeepEnds | processed_data/anonymize_names.py:84 | `splitlines(keepends=True)` pieces are non-empty and concatenate back to the text |
| Text.DigitChar | processed_data/build_dataset_adult.py:190 | a digit value written as its ASCII digit |
| Text.NatToString | processed_data/build_dataset_adult.py:190 | `str(n)` is a non-empty run of digits without a leading zero |
| Text.ParseNatToString | processed_data/build_dataset_adult.py:150 | `int(str(n)) == n` |
| Text.NatToStringInjective | processed_data/build_dataset_adult.py:190 | different numbers print differently |
| Text.IntToString | Data_Pipeline/data_merger.py:119-132 | `str(i)` is never empty |
| Text.ZeroPad6 | processed_data/build_dataset_adult.py:180-190 | `f"{n:06d}"` is at least six digits and reads back as `n` |
| Text.ParseNatLeadingZeros | processed_data/build_dataset_adult.py:190 | leading zeros do not change the value |
| Text.DigitRun | processed_data/build_dataset_adult.py:146 | the leading digit run, stopping at the first non-digit |
| Text.SpaceRun | processed_data/build_dataset_adult.py:146 | the leading whitespace run, stopping at the first other character |
| Text.StripLeadingSpace | processed_data/build_dataset_adult.py:151 | a leading whitespace character does not change `strip()` |
| Text.ParseIntText | Data_Pipeline/excel_reader_fixed.py:250 | a text that reads as an integer is not blank |
| Text.InfinityNotInt | Data_Pipeline/excel_reader_fixed.py:161 | a text `float` reads as an infinity never reads as an integer |
| Text.InfinityStart | Data_Pipeline/excel_reader_fixed.py:161 | every spelling of an infinity starts with `i` or a sign and `i` |
| Text.Lower | Data_Pipeline/excel_reader_fixed.py:113 | `lower()` changes each character on its own and keeps the length |
| Text.Upper | processed_data/anonymize_names.py:36 | `upper()` changes each character on its own and keeps the length |
| Text.LowerIdempotent | Data_Pipeline/excel_reader_fixed.py:113 | lower-casing twice is lower-casing once |
| Text.LessIrreflexive | Data_Pipeline/data_merger.py:235 | no session id sorts before itself |
| Text.LessTransitive | Data_Pipeline/data_merger.py:235 | string order is transitive |
| Text.LessTotal | Data_Pipeline/data_merger.py:235 | any two different strings are ordered one way |
| Text.LessAsymmetric | Data_Pipeline/data_merger.py:235 | string order is asymmetric |
| Text.SumAppend | Data_Pipeline/excel_reader_fixed.py:271 | the sum of two lists is the sum of their sums |
| TxtReader.UpToBreak | Data_Pipeline/txt_reader.py:63-72 | `.*` stops at the first line break and takes a text without one whole |
| TxtReader.PrefixContent | Data_Pipeline/txt_reader.py:63-72 | a role pattern matches only a line that starts with its word |
| TxtReader.FirstPrefix | Data_Pipeline/txt_reader.py:163-176 | some pattern of the list matches iff the loop finds one, and the group is that pattern's |
| TxtReader.FirstColon | Data_Pipeline/txt_reader.py:182 | the first `:` or `：` of the line, with none before it |
| TxtReader.Identify | Data_Pipeline/txt_reader.py:148-191 | a doctor pattern wins; a patient needs no doctor pattern and either a patient pattern or no doctor keyword; "unknown" exactly when no pattern and no keyword matches, and then the content is the whole line |
| TxtReader.GroupOf | Data_Pipeline/txt_reader.py:63-72 | after the leading whitespace, a line without a break is kept whole by the group |
| TxtReader.ColonContent | Data_Pipeline/txt_reader.py:63-72 | a word, a colon and a rest match that word's pattern with the rest stripped |
| TxtReader.DoctorLine | Data_Pipeline/txt_reader.py:114-119 | `医生：x` is the doctor's line with content `x` stripped |
| TxtReader.PatientLine | Data_Pipeline/txt_reader.py:114-119 | `病人：x` is the patient's line with content `x` stripped |
| TxtReader.FirstPatternMatches | Data_Pipeline/txt_reader.py:163-168 | the first pattern in the list wins when it matches |
| TxtReader.OtherFirstChar | Data_Pipeline/txt_reader.py:63-72 | a pattern whose word starts with another character does not match |
| TxtReader.StripLeadingBlank | Data_Pipeline/txt_reader.py:127 | dropping leading whitespace first does not change the stripped text |
| TxtReader.TurnsOf | Data_Pipeline/txt_reader.py:122-143 | never more turns than lines |
| TxtReader.ParseDialogue | Data_Pipeline/txt_reader.py:103-146 | the loop computes the turns of the text |
| TxtReader.TurnsStep | Data_Pipeline/txt_reader.py:126-143 | one more line adds its own turn, numbered after the others, exactly when it is not blank |
| TxtReader.TurnsCount | Data_Pipeline/txt_reader.py:126-143 | one turn per non-blank line |
| TxtReader.TurnAt | Data_Pipeline/txt_reader.py:126-143 | the turn at position `k` is numbered `k + 1` and names its non-blank line, with the role and content of that line |
| TxtReader.TurnOfInit | Data_Pipeline/txt_reader.py:126-143 | adding a line leaves the earlier turns where they were |
| TxtReader.TurnsIncreasing | Data_Pipeline/txt_reader.py:126-143 | the turns follow the order of their lines |
| TxtReader.LineHasTurn | Data_Pipeline/txt_reader.py:126-143 | every non-blank line gets a turn |
| TxtReader.StripExt | Data_Pipeline/txt_reader.py:215 | `splitext(name)[0]` is a prefix of the name |
| TxtReader.PatientIdPart | Data_Pipeline/txt_reader.py:229-232 | a matched `P\d+` id is `P` or `p` and digits, and the stem is the id, `_` and the rest |
| TxtReader.NumberTail | Data_Pipeline/txt_reader.py:229-230 | the trailing number is a non-empty run of digits |
| TxtReader.VisitWordNumber | Data_Pipeline/txt_reader.py:229 | the visit number is a non-empty run of digits |
| TxtReader.MatchSession | Data_Pipeline/txt_reader.py:228-238 | a matching pattern takes the stem's `P\d+` id, and only the first pattern gives a visit number |
| TxtReader.FirstSessionMatch | Data_Pipeline/txt_reader.py:235-259 | the first pattern that matches, and no match only when none does |
| TxtReader.VisitTypeOf | Data_Pipeline/txt_reader.py:244-250 | a visit is marked initial exactly when its type is "initial" |
| TxtReader.SessionInfoOf | Data_Pipeline/txt_reader.py:193-269 | the session id is the name without its extension, an initial visit has type "initial", and a visit number comes only from the first pattern |
| TxtReader.SplitAtSeparator | Data_Pipeline/txt_reader.py:262-266 | a stem with `_` splits into at least two parts |
| TxtReader.ExtractSessionInfo | Data_Pipeline/txt_reader.py:193-269 | the method computes the session fields of the file name |
| TxtReader.NoUnderscore | Data_Pipeline/txt_reader.py:228-269 | a stem without `_` keeps every default: unknown patient and visit type, no number, not initial |
| TxtReader.MatchedPatientId | Data_Pipeline/txt_reader.py:235-238 | a stem a pattern matches gets its patient id from the `P\d+` group |


## Left out

- File and directory I/O is not modelled. This covers `read_text`/`write_text`, `open`, `listdir`, `glob` and `rglob`. Every operation takes its text, stems or file lists as values and returns what the source would write.
- `process_directory` (Data_Pipeline/txt_reader.py:271-314) is not modelled: it only walks a directory and calls the modelled parser.
- `save_as_json` / `save_as_jsonl` (Data_Pipeline/data_merger.py:286-332) are not modelled: they serialise to disk.
- Neither the output file written by `process_script.py` nor the label write-back of processed_data/label_speakers.py:197-202 is modelled. The labelled text is returned instead.
- Logging and printing are not modelled: `print_report`, `_print_statistics`, the printing in `print_overall` and the logger calls.
- The orchestration scripts are not part of this model: every `main()` except the grouping logic of `process_script.py`, all of Data_Pipeline/main_pipeline.py, and the empty stub Data_Pipeline/main/Transformation.py.
- The test scripts are not modelled. They serve only as evidence of intended behaviour.
- pandas is not modelled: `read_excel`, DataFrame filtering, `notna` and `iterrows`. A spreadsheet row is a sequence of (column label, cell) pairs, where a cell is empty, an integer or a text.
- Floating-point cells are not modelled, and neither is `int(float(...))` truncation. NaN is modelled as the empty cell.
- Duplicate column labels in one row are not modelled: a lookup sees the first column with the label.
- A row is modelled as raising, and skipped by the `try`/`except` of `process_excel_data`, when `int(float(value))` meets a text that `float` reads as an infinity. This covers the age at Data_Pipeline/excel_reader_fixed.py:161, the total at :250, and the older reader's items and total at Data_Pipeline/excel_reader.py:295 and :310. A text such as `1e400` that overflows only through its exponent is not recognised, because the float grammar is not modelled; such a row is modelled as not raising.
- `set_index('patient_id').to_dict('index')` failing on duplicate spreadsheet ids is not modelled. The spreadsheet side of the merger is given as a map from id to record.
- A `patient_id` / `session_id` key that is present with the value `None` is modelled the same as an absent key.
- The named-entity recogniser (processed_data/anonymize_names.py:24-31) is a foreign model. It is a function parameter whose output is filtered exactly as `to_entities` filters it.
- Anonymize.Detect: requires a positive chunk size for non-empty text, because the source's chunk loop never ends otherwise.
- Anonymize.ReplacedLayoutAnyOrder: requires every span to hold text. An empty span that starts where another span starts gives two entities with the same start, and then the input order, which the stable sort keeps, decides the result.
- Regular expressions are hand-written predicates for the specific patterns used. `\d` means ASCII digits and `\s` a fixed set of whitespace characters; Unicode digit and space classes are not modelled.
- `.` in a pattern matches any character, which is correct only because lines never contain a newline.
- `splitlines` is modelled as splitting on `\n` only. `\r\n` and the other Unicode line separators are not modelled.
- Case folding is modelled on ASCII letters only. This affects `re.IGNORECASE` in `extract_session_info`, the case-insensitive cues, and the `.lower()`/`.upper()` calls modelled by ExcelFixed.StandardLabel, ExcelReader.Reader.StandardizeColumnNames, DataMerger.VisitTypeOf, Anonymize.ItemEntity and Anonymize.ToEntities. Python also folds non-ASCII letters, so a fullwidth `ＩＤ` becomes `ｉｄ` there but is left unchanged in the model.
- The date-and-time shape check of `looks_meta` follows the pattern's digit and separator structure. No date is interpreted.
