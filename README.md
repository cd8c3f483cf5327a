# ChatCFD core, modelled in Dafny

This project models the deterministic logic of ChatCFD, a tool that reads CFD
research papers and prepares OpenFOAM cases from them. The model covers five
groups of code:

- **Paper retrieval** (`CFDCaseExtractor` in `src/pdf_chunk_ask_question.py`).
  It crops each PDF page to its margins and cleans the page text with a fixed
  pipeline of regular-expression rewrites, a line filter and a page label. It
  keeps the chunks longer than 50 characters and indexes them. To answer a
  question it keeps the search hits closer than the configured distance and logs
  failed and empty requests in `token_usage`. Modules: `TextCleaning`, `PdfChunk`.
- **Tutorial preprocessing** (`src/preprocess_OF_tutorial.py`). This covers the
  FoamFile header strip of collected files, `extract_turbulence_model`, the
  split, bracket repair and merge of `merge_json_objects`, and the per-case
  derivation of `add_case_path_keys`: the `0.orig/` renames, required fields,
  solver, flow flags, turbulence type and model, and boundary types, together
  with the module-level keyword sets. Modules: `PreprocessTutorial`,
  `FoamScanners`.
- **Answer parsers** (`src/file_writer.py`). The four non-greedy delimiter
  scanners and the file filter of `copy_folder`. Module: `FileWriter`.
- **Fluent boundary names** (`extract_boundary_names` in
  `src/case_file_requirements.py`). Module: `CaseFileRequirements`.
- **controlDict rules and the case run** (`src/run_of_case.py`). The two
  time-control tables and the solver slice of `case_run`. Module: `RunOfCase`.

The helper modules are shared by these groups:

- `PyStrings` holds Python's `str` operations: `strip`, `split`, `join`, `find`,
  clamped slicing, `lower` and whitespace tokens.
- `PyDict` holds an insertion-ordered `dict` as a sequence of entries.
- `SeqUtil` holds filters, first and last index, and flat-map.
- `Wrappers` holds `Option` and `Result`.
- `ConfigState` holds the global `config` fields that the core writes.

Each regular expression is written out as an explicit left-to-right scanner,
following the engine's leftmost-first, greedy or lazy choices. A lemma then
relates the scanner to a simpler statement: text written in the expected shape
comes back out, nothing is found exactly when no position matches, or the
result is the whole remaining text.

Character classes: `\s` and `str.isspace()` are the full set Python uses. `\d`
and `\w` are taken as ASCII only, and `lower()` changes only ASCII letters.

Some places where the code does less than its own comments, docstrings or
record fields suggest are modelled as the code behaves:

- A successful `query_case_setup` appends nothing to `token_usage`. The record it
  builds carries `"status": "success"` (src/pdf_chunk_ask_question.py:125) but is
  never appended; only the "empty" and "failed" paths log
  (src/pdf_chunk_ask_question.py:159-161). `PdfChunk.Query` states this.
- `process_pdf` catches nothing (src/pdf_chunk_ask_question.py:74-87). An embedder
  that raises, or an embedding array with no second dimension because no chunk
  survives, ends the call after `chunks` is overwritten, and the previous index
  stays in place. Zero usable pages is not checked separately.
- `extract_boundary_names` is documented to return a list
  (src/case_file_requirements.py:10-11) but returns `None` on its normal path and
  passes the names through `config.case_boundaries`.
  `CaseFileRequirements.ExtractBoundaryNames` returns an `Option`.
- `case_run` means to take the text after the `application` keyword
  (src/run_of_case.py:108-109) but does not notice a missing keyword. `find` gives
  -1, so the slice starts at index 10 (`RunOfCase.SolverTextWithoutApplication`).

## Model

| member | source | states |
|---|---|---|
| TextCleaning.MergeAcrossBrokenWord | src/pdf_chunk_ask_question.py:93 | A hyphen and newline between two word characters are deleted, and each side is cleaned on its own. |
| TextCleaning.InformationExample | src/pdf_chunk_ask_question.py:93 | `informa-\ntion` becomes `information`. |
| TextCleaning.MergeWithoutHyphen | src/pdf_chunk_ask_question.py:93 | Stage 1 leaves a text without hyphens unchanged. |
| TextCleaning.JoinUnitBreaksOnlyNewlines | src/pdf_chunk_ask_question.py:96 | Stage 2 keeps the length, and the only change it makes is a newline turned into a space. |
| TextCleaning.JoinUnitBreaksFrom | src/pdf_chunk_ask_question.py:96 | A character becomes a space exactly where a newline is followed by digits, optional spaces and a 1-3 letter unit ending at a word boundary. |
| TextCleaning.PageNumberMatch | src/pdf_chunk_ask_question.py:99 | A match of `^\s*\d+\s*$` covers only spaces and digits and ends at a line end or the end of the text. |
| TextCleaning.PageNumberLineBlanked | src/pdf_chunk_ask_question.py:99 | A line holding only one number between blanks is deleted up to its newline, whether the next line starts with blanks or not, and also when it is the last line. |
| TextCleaning.PageNumberOnlyText | src/pdf_chunk_ask_question.py:99 | A text that is one number with white space around it becomes empty. |
| TextCleaning.StripPageNumbersKeepsInk | src/pdf_chunk_ask_question.py:99 | Stage 3 deletes only spaces and digits; every other character survives, in order. |
| TextCleaning.StripPageNumbersWithoutDigits | src/pdf_chunk_ask_question.py:99 | Stage 3 leaves a text without digits unchanged. |
| TextCleaning.CollapseNewlinesFrom | src/pdf_chunk_ask_question.py:102 | After stage 4a no three newlines are adjacent, and the result starts with a newline exactly when the input does. |
| TextCleaning.CollapseNewlinesKeepsText | src/pdf_chunk_ask_question.py:102 | Stage 4a keeps every character other than a newline, in order. |
| TextCleaning.CollapseNewlinesRun | src/pdf_chunk_ask_question.py:102 | A maximal run of three or more newlines becomes exactly two newlines, and a shorter run is kept as it is. |
| TextCleaning.CollapseBlanksFrom | src/pdf_chunk_ask_question.py:103 | After stage 4b no two spaces or tabs are adjacent; the result is empty only for empty input. |
| TextCleaning.CollapseBlanksKeepsText | src/pdf_chunk_ask_question.py:103 | Stage 4b keeps every character other than a space or tab, in order. |
| TextCleaning.CollapseBlanksRun | src/pdf_chunk_ask_question.py:103 | A maximal run of two or more spaces and tabs becomes one space, and a single blank is kept as it is. |
| TextCleaning.SignificantLines | src/pdf_chunk_ask_question.py:106 | Every kept line is trimmed and longer than 3 characters. |
| TextCleaning.SignificantLinesFilter | src/pdf_chunk_ask_question.py:106 | The kept lines are exactly the trimmed lines longer than 3 characters, in input order. |
| TextCleaning.SignificantLinesComplete | src/pdf_chunk_ask_question.py:106 | Every line longer than 3 characters after trimming is kept, trimmed, and the kept lines are a subsequence of the trimmed lines. |
| TextCleaning.SignificantLinesEmpty | src/pdf_chunk_ask_question.py:106 | No line is kept exactly when every line trims to at most 3 characters. |
| TextCleaning.CleanTextEmpty | src/pdf_chunk_ask_question.py:106-109 | `clean_text` is "" exactly when no line of the staged text is longer than 3 characters after trimming. |
| TextCleaning.CleanTextLines | src/pdf_chunk_ask_question.py:106-109 | A non-empty cleaned page splits into the label line `Page n:` followed by the surviving trimmed lines. |
| TextCleaning.CleanTextNoDoubleBlank | src/pdf_chunk_ask_question.py:101-109 | No cleaned page holds two adjacent spaces or tabs. |
| TextCleaning.LabelLine | src/pdf_chunk_ask_question.py:109 | The page label holds no newline. |
| PdfChunk.CroppedObjects | src/pdf_chunk_ask_question.py:32-48 | The crop keeps, in page order, exactly the objects with x0 >= 50, top >= 50, x1 <= width-50 and bottom <= height-50, each as many times as it occurs on the page. |
| PdfChunk.CollectNonEmpty | src/pdf_chunk_ask_question.py:30-62 | The page loop appends the non-empty results in page order. |
| PdfChunk.NonEmptyResultsKept | src/pdf_chunk_ask_question.py:60-62 | The kept blocks are the cleaned pages at increasing page indices, and every page left out cleaned to "". |
| PdfChunk.NonEmptyResultsNonEmpty | src/pdf_chunk_ask_question.py:61-62 | No kept block is empty, and there are no more blocks than pages. |
| PdfChunk.SignificantChunks | src/pdf_chunk_ask_question.py:77-78 | The kept chunks are a subsequence of the split; each trims to more than 50 characters, and every such chunk is kept as many times as it occurs. |
| PdfChunk.CFDCaseExtractor.IndexText | src/pdf_chunk_ask_question.py:74-87 | `chunks` becomes the significant chunks of the split in every case. If the embedder fails, the call fails with its message and the old index stays; if no chunk survives, the call fails with the empty-embeddings message and the old index stays; otherwise the index is rebuilt from the embeddings. The log is unchanged. |
| PdfChunk.CFDCaseExtractor.ProcessPdf | src/pdf_chunk_ask_question.py:26-87 | The same, with the text taken from the non-empty cleaned pages joined with newlines. |
| PdfChunk.RelevantChunks | src/pdf_chunk_ask_question.py:135 | The lookup fails exactly when some close hit has an id that is not a valid list index. Otherwise the result has no more entries than hits, each one a chunk. |
| PdfChunk.RelevantChunksOfCloseHits | src/pdf_chunk_ask_question.py:134-135 | The relevant chunks are, one for one and in order, the chunks named by the hits with distance below the threshold. |
| PdfChunk.RelevantChunksMonotone | src/pdf_chunk_ask_question.py:135 | Raising the threshold never removes a relevant chunk, and a failing lookup keeps failing. |
| PdfChunk.Failed | src/pdf_chunk_ask_question.py:164-167 | A failed entry has status "failed", carries the message and keeps every other field. |
| PdfChunk.SumTokens | src/pdf_chunk_ask_question.py:138 | Summing the context tokens fails exactly when counting some relevant chunk fails. |
| PdfChunk.Retrieve | src/pdf_chunk_ask_question.py:133-135 | Retrieval fails with the embedder's error, else with the search's error, else gives the lookup of the close hits, which can itself fail. |
| PdfChunk.Query | src/pdf_chunk_ask_question.py:115-169 | A query logs at most one entry, always "failed" or "empty", with its timestamp and question. The model is asked exactly when an index exists, retrieval gives chunks and counting their tokens succeeds. Nothing is logged only when the model was asked. |
| PdfChunk.QueryWithoutIndex | src/pdf_chunk_ask_question.py:129-130 | Without an index nothing is asked, one "failed" entry without a context count is logged, and the reply is "Processing error: ..." with the fixed message. |
| PdfChunk.QueryRetrievalFailed | src/pdf_chunk_ask_question.py:133-135 | An error while embedding, searching or looking up chunks, including an out-of-range row id, gives one "failed" entry with the message and no context count, a "Processing error: ..." reply, and no model call. |
| PdfChunk.QueryCountFailed | src/pdf_chunk_ask_question.py:138-139 | A token-count error gives one "failed" entry with the message and no context count, a "Processing error: ..." reply, and no model call. |
| PdfChunk.QueryEmptyEntry | src/pdf_chunk_ask_question.py:141-144 | An "empty" entry is logged exactly when an index exists and retrieval gives no chunk. Then the reply is the fixed message, the context count is 0, there is no error, and the model is not asked. |
| PdfChunk.QueryAnswered | src/pdf_chunk_ask_question.py:159-169 | Once chunks are retrieved and counted, nothing is logged exactly when the model answers, and the reply is the answer. A model error logs one "failed" entry with the message and the context count. |
| PdfChunk.CFDCaseExtractor.QueryCaseSetup | src/pdf_chunk_ask_question.py:115-169 | The method runs the steps in order and stops at the first one that raises. Its reply and asked flag are those of `Query`, so every failure, empty, answered and model-error property above holds for it. The log grows by exactly the entries `Query` logs, and the chunks and index are unchanged. |
| PdfChunk.CFDCaseExtractor.constructor | src/pdf_chunk_ask_question.py:21-23 | A new extractor has no index, no chunks and an empty log. |
| PreprocessTutorial.StripHeader | src/preprocess_OF_tutorial.py:103-112 | The kept text is the lines from the first line containing `FoamFile` to the end, or "" when no line contains it. |
| PreprocessTutorial.StrippedStartsWithMarkerLine | src/preprocess_OF_tutorial.py:104-112 | The kept text starts with the marker line and so contains `FoamFile`. |
| PreprocessTutorial.ModelWord | src/preprocess_OF_tutorial.py:186 | The model word holds no white space and neither starts nor ends with `;`. |
| PreprocessTutorial.ExtractTurbulenceModel | src/preprocess_OF_tutorial.py:181-188 | The result is the last token, stripped of `;`, of the first line whose lowercase form contains "model", or None when there is no such line. |
| PreprocessTutorial.JoinRepaired | src/preprocess_OF_tutorial.py:127-137 | The repaired pieces joined with newlines rebuild the split text. |
| PreprocessTutorial.ObjectTextsRebuild | src/preprocess_OF_tutorial.py:127-137 | The object texts joined with "\n" reproduce the file content exactly. |
| PreprocessTutorial.MergedLaterWins | src/preprocess_OF_tutorial.py:139-145 | A key is in the merge exactly when some parsed object defines it, and it holds the value of the last such object. Pieces that fail to parse add nothing. |
| PreprocessTutorial.MergeJsonObjects | src/preprocess_OF_tutorial.py:121-151 | The loop builds the merge of the parsed object texts, in order. |
| PreprocessTutorial.RenamedKeyShape | src/preprocess_OF_tutorial.py:199-205 | A `0.orig/` key becomes `0/` plus the rest, without a trailing `.orig`, and starts with `0/`. |
| PreprocessTutorial.WithoutOrigPartShape | src/preprocess_OF_tutorial.py:202-205 | Under `0/`, dropping `.orig` from the last path part is dropping it from the end of the path. |
| PreprocessTutorial.RenamesOfShape | src/preprocess_OF_tutorial.py:197-206 | The collected renames are the `0.orig/` keys in order, each paired with its new name. |
| PreprocessTutorial.CollectRenames | src/preprocess_OF_tutorial.py:197-206 | The first loop collects those renames. |
| PreprocessTutorial.ApplyRenames | src/preprocess_OF_tutorial.py:209-211 | The second loop performs the renames one after the other. |
| PreprocessTutorial.RenameAllGet | src/preprocess_OF_tutorial.py:209-211 | After the renames each key holds the value of the last source moved onto it, if any, and keys stay unique. |
| PreprocessTutorial.RenamedCaseFiles | src/preprocess_OF_tutorial.py:196-211 | After step 1 no `0.orig/` key is left and other keys keep their content. A `0/` key holds the content of its last source. |
| PreprocessTutorial.RenamedHasNoOrigKey | src/preprocess_OF_tutorial.py:196-211 | No key starts with `0.orig/` after step 1. |
| PreprocessTutorial.RequiredFieldsExact | src/preprocess_OF_tutorial.py:213-215 | `required_field` holds exactly the keys that start with `0/` after renaming. |
| FoamScanners.KeywordSearchOfSetting | src/preprocess_OF_tutorial.py:219-220 | A setting `kw <spaces> word;` gives back `word`. |
| FoamScanners.KeywordSearchNone | src/preprocess_OF_tutorial.py:219-220 | The search finds nothing exactly when no position starts a match. |
| FoamScanners.KeywordSearchFound | src/preprocess_OF_tutorial.py:219-220 | A found word is the group of the leftmost match. |
| PreprocessTutorial.DerivedFlags | src/preprocess_OF_tutorial.py:225-246 | `singlePhase` is False exactly for a multiphase solver. `particle_flow` holds for a particle solver or a key containing `Cloud`. `reacting_flow` holds for a reacting solver, `constant/combustionProperties` or `constant/reactions`. A found solver is a non-empty word. |
| PreprocessTutorial.AnyKeyContains | src/preprocess_OF_tutorial.py:235 | The scan finds a key containing the marker exactly when one exists. |
| PreprocessTutorial.TurbulenceOfFirst | src/preprocess_OF_tutorial.py:251-273 | Type and model come from the first `constant/.../turbulenceProperties` file that declares `simulationType <word>;`. The model is the `LESModel` word for LES, the `RASModel` word for RAS, and None otherwise. |
| PreprocessTutorial.TurbulenceModelNeedsType | src/preprocess_OF_tutorial.py:258-269 | A model is only reported for an LES or RAS type, and a reported type is non-empty. |
| PreprocessTutorial.FindTurbulence | src/preprocess_OF_tutorial.py:251-273 | The loop with `break` gives that type and model. |
| FoamScanners.BoundaryFieldOfBlock | src/preprocess_OF_tutorial.py:286-293 | A `boundaryField { ... }` block of patches gives back the text between its braces. |
| FoamScanners.TypeValuesRender | src/preprocess_OF_tutorial.py:295-297 | Entries written as `type value;` come back, in order. |
| FoamScanners.TypeOfEmptyValue | src/preprocess_OF_tutorial.py:296 | With `;` right after two spaces, the group is one space. |
| PreprocessTutorial.StrippedSet | src/preprocess_OF_tutorial.py:301-302 | The set holds exactly the trimmed values. |
| PreprocessTutorial.BoundaryTypesMember | src/preprocess_OF_tutorial.py:279-304 | A type is collected exactly when some file under `0/` or `0.org/` has it in its first boundaryField block. |
| PreprocessTutorial.CaseBoundaryTypes | src/preprocess_OF_tutorial.py:279-304 | The loop collects those types. |
| PreprocessTutorial.DeriveCase | src/preprocess_OF_tutorial.py:191-305 | One case gets its renamed files, required fields, solver, flags, turbulence and boundary types. |
| PreprocessTutorial.DeriveAll | src/preprocess_OF_tutorial.py:190-307 | Every case is derived, and the case names and order are kept. |
| PreprocessTutorial.SolversOfMember | src/preprocess_OF_tutorial.py:223 | A solver is collected exactly when some case has it. |
| PreprocessTutorial.RecordBoundaryTypesMember | src/preprocess_OF_tutorial.py:305 | A boundary type is collected exactly when some case has it. |
| PreprocessTutorial.CollectKeywords | src/preprocess_OF_tutorial.py:223-305 | The four keyword sets are gathered from the derived cases. |
| PreprocessTutorial.KeywordCollector.AddCasePathKeys | src/preprocess_OF_tutorial.py:190-307 | Every case is derived in order, and each module-level set grows by exactly the values of the derived cases. |
| PreprocessTutorial.KeywordCollector.constructor | src/preprocess_OF_tutorial.py:176-179 | The keyword sets start empty. |
| FileWriter.NextMatchNone | src/file_writer.py:13-14 | There is no match exactly when no opener is followed by a closer. |
| FileWriter.BetweenRender | src/file_writer.py:13-14 | A lazy `open(.*?)close` scan gives back, in order, every item written between the delimiters, when no item contains the closer. |
| FileWriter.NextMatchLeftmost | src/file_writer.py:13-14 | The scanner returns a match exactly when it is the leftmost opener followed by a closer, paired with the first closer after that opener, as the lazy `(.*?)` does. |
| FileWriter.BetweenFromLeftmost | src/file_writer.py:13-14 | The groups start with the text of the leftmost match, and `findall` resumes right after its closer, so matches do not overlap. |
| FileWriter.StrippedGroupsFirst | src/file_writer.py:11-15 | The first extracted item is the stripped text of the leftmost match, and the rest are the stripped groups found after its closer. |
| FileWriter.ExtractContentInBracketsEmpty | src/file_writer.py:11-15 | The result is [] exactly when no opener is followed by `]]`. |
| FileWriter.ExtractContentInBracketsRender | src/file_writer.py:11-15 | An answer written as `<indicator> [[item]]` blocks gives back the trimmed items. |
| FileWriter.ExtractFoamFileContent | src/file_writer.py:17-33 | The result is the unique candidate containing `FoamFile`, the fixed "No content ..." string when there is none, or the fixed "Error: Multiple ..." string when there are several. |
| FileWriter.ExtractFoamFileContentSingle | src/file_writer.py:17-33 | A single tagged block with a FoamFile header is returned as written. |
| FileWriter.ExtractPureResponseRest | src/file_writer.py:35-43 | The result is the whole text after the first "Here is my response:", stripped, or "" without the marker. |
| FileWriter.ExtractPureResponseOf | src/file_writer.py:35-43 | A response after the marker comes back stripped. |
| FileWriter.ExtractPureResponseAbsent | src/file_writer.py:40-43 | Without the marker the result is "". |
| FileWriter.RemoveFunctionsBlocksUnchanged | src/file_writer.py:45-47 | The text is returned unchanged exactly when no `functions\s*{...}` match exists. |
| FileWriter.FunctionsBlockWrittenAt | src/file_writer.py:46 | A match runs from `functions` through white space and `{` to the first following `}`, so nesting is not tracked. |
| FileWriter.RemoveLeadingFunctionsBlock | src/file_writer.py:45-47 | A leading functions block is deleted up to its first `}`, and the rest is kept. |
| FileWriter.RemoveFunctionsBlocksLeftmost | src/file_writer.py:45-47 | At any position, the text before the leftmost `functions\s*{...}` match is copied, the match is deleted through its first `}`, and the scan resumes after it; with `RemoveFunctionsBlocksUnchanged` this gives the substitution on every input. |
| FileWriter.CopiedFiles | src/file_writer.py:88-102 | The copied files are, in order, those of size <= 25*1024 whose names do not end in `.msh`. |
| FileWriter.CopiedNamesOfFilter | src/file_writer.py:92-102 | No copied name ends in `.msh`, and every file that passes both tests is copied. |
| CaseFileRequirements.FindStart | src/case_file_requirements.py:17-22 | The backward loop finds the last line that trims to `(0 "Zone Sections")`, or -1. |
| CaseFileRequirements.CollectNames | src/case_file_requirements.py:31-42 | The forward loop collects the names of the lines after the start, in line order. |
| CaseFileRequirements.ExtractBoundaryNames | src/case_file_requirements.py:5-44 | Without a marker the result is [] and the configuration is untouched. Otherwise `config.case_boundaries` gets the names after the last marker, and the result is None. |
| CaseFileRequirements.OnlyAfterLastMarker | src/case_file_requirements.py:19-32 | Only the lines after the last marker line are scanned. |
| CaseFileRequirements.NamesOfConcat | src/case_file_requirements.py:31-42 | The names of consecutive stretches of lines are concatenated, so kept values stay in line order. |
| CaseFileRequirements.NamesOfMember | src/case_file_requirements.py:31-42 | A name is kept exactly when some line yields it and it is not excluded. |
| CaseFileRequirements.RecordMatch | src/case_file_requirements.py:28-37 | A record match gives a non-empty group followed by `)())`. |
| CaseFileRequirements.RecordLineValue | src/case_file_requirements.py:28-39 | A line `(39 (<zone> <kind> <name>)())` yields exactly `<name>`. |
| CaseFileRequirements.RecordValueShape | src/case_file_requirements.py:33-39 | A value comes only from a trimmed line starting with `(39`, and it is a non-empty run of non-spaces. |
| CaseFileRequirements.ExcludedSuffixed | src/case_file_requirements.py:40-42 | A word followed by `_FLUID` or `_SOLID` is excluded. |
| CaseFileRequirements.ExcludedSplit | src/case_file_requirements.py:41 | Every excluded value other than `FLUID` is such a word and suffix. |
| RunOfCase.AssignSteady | src/run_of_case.py:41-48 | The steady branch applies its seven assignments in order. |
| RunOfCase.AssignTransient | src/run_of_case.py:49-65 | The transient branch applies its assignments in order, with `deltaT` assigned twice. |
| RunOfCase.AssignFixed | src/run_of_case.py:82-88 | `setup_cfl_control_2` applies its fixed assignments in order. |
| RunOfCase.SetupCflControl | src/run_of_case.py:31-74 | The written dictionary is the parsed one with the table for its solver applied. A failed read, a missing `application` or a failed write returns False. Only a successful write sets `set_controlDict_time`. |
| RunOfCase.SetupCflControl2 | src/run_of_case.py:76-96 | The written dictionary is the parsed one with the fixed table applied, whatever the solver. The result is True exactly when reading and writing succeed. |
| RunOfCase.LastAssignmentWins | src/run_of_case.py:58-65 | The last assignment to a key decides its value. |
| RunOfCase.UnassignedKept | src/run_of_case.py:36-65 | A key that nothing assigns keeps its value. |
| RunOfCase.AssignmentsKeepOrder | src/run_of_case.py:42-65 | Assignments keep existing keys in place and keys unique. |
| RunOfCase.SteadySettingsMeetEntries | src/run_of_case.py:41-48 | The steady solver gets adjustTimeStep yes, maxCo, startTime 0, endTime 10, stopAt endTime, writeInterval 5 and deltaT 1. Other keys are left as read. |
| RunOfCase.TransientSettingsMeetEntries | src/run_of_case.py:49-65 | The transient solver gets deltaT dt, endTime 10*dt and writeInterval 2, plus the common entries. Other keys are left as read. |
| RunOfCase.CflSettingsMeetEntries | src/run_of_case.py:38-65 | `setup_cfl_control` gives steady solvers the steady table and transient ones dt 1e-8 (rhoCentralFoam, sonicFoam) or 1e-5. `application` and other keys are left as read. |
| RunOfCase.FixedSettingsMeetEntries | src/run_of_case.py:82-88 | `setup_cfl_control_2` gives endTime 2, writeInterval 1 and deltaT 1 plus the common entries, whatever the solver. |
| RunOfCase.CaseRun | src/run_of_case.py:98-139 | A failed read returns False. Otherwise the run command uses the sliced solver; a non-zero return code returns stderr, and a zero one returns "case run success." and sets `flag_case_success_run`. |
| RunOfCase.SolverTextBetween | src/run_of_case.py:108-113 | The solver is the text between the end of the first `application` and the next `;`. |
| RunOfCase.SolverTextWithoutApplication | src/run_of_case.py:109-113 | Without `application` the slice starts at index 10, which goes unnoticed. |
| RunOfCase.SolverTextUnterminated | src/run_of_case.py:110-113 | Without a following `;` the slice stops before the last character. |

## Left out

- Text extraction from a PDF (pdfplumber) is a foreign library. It is a function parameter from the cropped objects to text.
- The langchain `RecursiveCharacterTextSplitter` is a function parameter. No chunk size, overlap or separator property is claimed about it.
- The sentence-transformer embedder and FAISS's `IndexFlatL2` are foreign. The embedders and the search are parameters that return either a result or the message of the exception they raise. Building the index from a non-empty embedding array (`IndexFlatL2` and `index.add`, src/pdf_chunk_ask_question.py:86-87) is taken to succeed, since every row the embedder returns has the same width. Search returns hits of (row id, distance), and distances are exact reals rather than float32.
- PdfChunk.RelevantChunks: does not state "at most `top_k` chunks", because that bound is FAISS's promise about its search result, which is a parameter here. The model bounds the result by the number of hits.
- The truthiness of a FAISS index object is taken as "an index was built".
- tiktoken token counting, Python's `repr` of the chunk list inside the prompt, and the language-model clients are function parameters. The counter and the model may fail with a message. Only whether the model was called is observed.
- Timestamps from `datetime.now()` are a parameter.
- `main` functions and printing are left out.
- File-system walking, reading and writing are left out: `case_config_collector`'s directory walk, `os.walk` and `shutil.copy2` in `copy_folder`, and the appending in `describe_cases`. Inputs are strings, line sequences and (name, size) entries.
- The `constant/polyMesh` directory pruning in `copy_folder` is left out, since it concerns the walk, not the file filter.
- `json.loads` is a partial parse function parameter. `json.dumps` and the 2e5-length filter of `describe_cases` are left out.
- `ParsedParameterFile` is left out. The controlDict is an insertion-ordered dictionary of words, integers and reals, the read is an `Option`, and `writeFile`'s success is a boolean.
- `subprocess.run` is a function from command to (return code, stdout, stderr).
- `convert_mesh` is left out. It only runs an external command.
- `write_field_to_file` is left out, because it depends on latin-1 and unicode_escape codec details.
- `analyze_running_error` is left out. It is a language-model call whose answer is parsed with the scanners modelled here.
- The global `config` module is an explicit `ConfigState.Config` object. It has only the fields the core reads or writes.
- Regular-expression `\d`, `\w` and `str.lower()` are modelled on ASCII only. Python also accepts other Unicode digits and letters.
- PreprocessTutorial.MergeJsonObjects: takes every piece that parses to be a JSON object. A piece that is valid JSON but not an object (a list, a number, a string) makes `merged_dict.update` raise, and the handler catches only `json.JSONDecodeError`, so the source ends with an uncaught exception (src/preprocess_OF_tutorial.py:141-144). The parser parameter yields either a map or `None`, so the model has no such piece: the uncaught exception, and the output file it leaves unwritten, are not modelled.
- PreprocessTutorial.MergedOf: is a Dafny `map`, which has no order. `merged_dict` keeps keys in first-insertion order, and `json.dump` writes them in that order (src/preprocess_OF_tutorial.py:143-149). The model keeps which keys exist and which value wins, not the order of the written file.
- FileWriter.BracketOpener, FileWriter.StartTag and FileWriter.EndTag: take the indicator literally. The source pastes it into the regular expression unescaped (src/file_writer.py:13, 18-22), so an indicator holding regex metacharacters would match differently. The callers pass plain words such as `File_for_revision` (src/file_writer.py:129-131).
