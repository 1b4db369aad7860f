# Mortgage statement pipeline — a Dafny model

This project models the core of the mortgage-statement agent. The agent lists the PDFs
in a watched Drive folder and downloads each one. It turns the PDF into text, using OCR
when no page has text. It extracts the statement fields with per-lender regular
expressions, calls an LLM only when a mandatory field is missing or empty, and merges the
two results with the regex values winning. Every record whose `needs_review` is falsy is
appended to Google Sheets or Airtable. A separate processed-ID store keeps the set of
handled file IDs in a JSON file.

Modules, one per source file, plus `Wrappers` (`wrappers.dfy`: `Option` and `Result`) and two for
the Python built-ins the core relies on:

- `PyText` (`py_text.dfy`): `str.isspace`, `str.strip`, `str.split(sep, 1)[0]` and `sep.join`.
- `PyDict` (`py_dict.dfy`): insertion-ordered dicts (`d[k] = v`, `d.update`, `d.values()`) and
  Python truthiness of values.
- `Extraction` (`extraction.dfy`): `modules/extractor.py`.
- `PdfText` (`pdf_text.dfy`): `modules/pdf_parser.py`.
- `Processed` (`processed.dfy`): `modules/processed_store.py`, as a class over a modelled file system.
- `Output` (`output.dfy`): `modules/writer.py`. The configuration checks are a pure function;
  the writer is a class whose worksheet rows or Airtable records grow by one per appended record.
- `Pipeline` (`pipeline.dfy`): `modules/processing_chain.py`, as a class that drives the watcher, the parser, the extractor and the writer.
  The loop at the end of `main.py` (lines 99-110) makes the same decisions.

The model keeps these behaviours of the code as written:

- `extract` never sets `needs_review`. A record carries that key only when a lender
  configures a regex pattern under the name `needs_review`. So with the shipped LLM stub
  every listed file is written, including files with missing fields
  (`Pipeline.ProcessingChain.StubPipelineWritesEveryFile`).
- The chain never consults the processed-ID store: a second pass downloads, extracts and
  writes every file again (`Pipeline.ProcessingChain.RunTwice`).
- The LLM and OCR steps are stubs that return `{}` and `""`.
- A store write that fails after the file was truncated loses every stored ID on the next
  start, not only the ID being marked (`Processed.RestartAfterTruncatedWrite`).
- A record's value for a field is the capture of the LAST matching pattern for that field
  (lender order, then pattern order), while its position in the record's key order is where its
  first matching pattern put it.
- Two stores on the same file overwrite each other's IDs: each rewrites the file with its own
  in-memory set (`Processed.InterleavedMarksLoseUpdate`).

## Model

| member | source | states |
|---|---|---|
| PyText.Strip | modules/writer.py:39 | `strip()` returns the slice of its input that is left when the whitespace at both ends is cut off; everything cut is whitespace, and the result neither starts nor ends with whitespace |
| PyText.StripEmptyIffBlank | modules/pdf_parser.py:38 | `not text.strip()` holds exactly when every character is whitespace (both directions) |
| PyText.StripIdempotent | modules/writer.py:39 | stripping a stripped string changes nothing |
| PyText.CutAt | modules/writer.py:39 | `split(sep, 1)[0]` is a prefix of the input that contains no separator and is followed by the separator whenever it is shorter than the input |
| PyText.JoinLength | modules/pdf_parser.py:35 | joining n ≥ 1 parts gives their total length plus n - 1 separators, empty parts included |
| PyText.JoinContainsPart | modules/pdf_parser.py:35 | every part appears unchanged at its own offset in the joined string |
| PyText.JoinBlankIffAllBlank | modules/pdf_parser.py:35-38 | with a whitespace separator, the joined text is all whitespace exactly when every part is |
| PyDict.PutKeys | modules/extractor.py:38 | `d[k] = v` appends `k` to the key order only when it is new; the key set gains `k` |
| PyDict.PutAllItems | modules/extractor.py:88 | assigning keys in turn gives each one its source value and leaves every other key alone |
| PyDict.PutAllKeys | modules/extractor.py:88 | assigning distinct keys in turn appends the new ones to the key order, in order |
| PyDict.Update | modules/extractor.py:87-88 | `d.update(other)` keeps the dict well formed; `other`'s values win; keys new to `d` follow `d`'s keys in `other`'s order |
| PyDict.UpdateEmpty | modules/extractor.py:104-106 | updating `{}` with a dict gives back that dict, key order included |
| PyDict.Values | modules/writer.py:89 | `list(d.values())` has one value per key, in insertion order |
| Extraction.Capture | modules/extractor.py:37-41 | the value read is the `value` group when the pattern names it, else group 1; it is `None` exactly when that group took no part in the match, and falsy exactly when it is `None` or empty |
| Extraction.ExtractWithRegex | modules/extractor.py:20-42 | the nested loop over lenders and their patterns yields the rule-by-rule fold `RegexPass` |
| Extraction.ApplyRulesField | modules/extractor.py:33-41 | after the rules run, a field holds the capture of its last matching rule, or its earlier value when no rule for it matched |
| Extraction.RegexPassField | modules/extractor.py:30-42 | a field is in the regex result exactly when some rule for it matched, and every such field is mandatory |
| Extraction.LastMatchingRuleWins | modules/extractor.py:31-41 | when several rules name one field, the value comes from the last rule whose pattern matched |
| Extraction.ApplyRulesKeys | modules/extractor.py:31-41 | applying rules appends each newly matched field once, at its first match, after the keys already present |
| Extraction.RegexPassKeyOrder | modules/extractor.py:30-42 | the regex result's key order is the fields of the matching rules in rule order, first occurrences only |
| Extraction.NeedsLlm | modules/extractor.py:44-61 | the fallback is needed exactly when some mandatory field is missing or has a falsy value (both directions) |
| Extraction.NoLendersNoFallback | modules/extractor.py:54-61 | with no lenders there is no mandatory field and no fallback |
| Extraction.ExtractWithLlm | modules/extractor.py:63-74 | the shipped LLM step yields an empty dict |
| Extraction.Merge | modules/extractor.py:76-89 | merged keys are the union; every regex value wins, even an empty one; fields only the LLM found keep the LLM value; the LLM keys come first in the key order |
| Extraction.Extracted | modules/extractor.py:91-106 | regex values always survive; with a fallback the keys are the union and the gaps are filled from the LLM; without one the record is exactly the regex result |
| Extraction.Extract | modules/extractor.py:91-106 | the method (regex loop, fallback test, optional LLM, merge) returns `Extracted` |
| Extraction.StubExtractIsRegexPass | modules/extractor.py:101-106 | with the LLM stub, `extract` is the regex pass, so every record field is a mandatory field |
| PdfText.ExtractText | modules/pdf_parser.py:18-40 | the page loop (`None` read as `""`), the newline join and the OCR fallback together compute `ParsedText` |
| PdfText.OcrIffNoPageHasText | modules/pdf_parser.py:31-40 | OCR output is returned exactly when no page has a visible character (a PDF with no pages included); otherwise the joined page texts |
| PdfText.TextIsCombined | modules/pdf_parser.py:37-40 | once one page has visible text, the result is the joined page texts |
| PdfText.TextLength | modules/pdf_parser.py:31-35 | that result is as long as all page texts plus one newline between each two pages |
| PdfText.CombinedKeepsEveryPage | modules/pdf_parser.py:33-35 | every page's text appears unchanged, in page order, in the joined text |
| PdfText.TextKeepsEveryPage | modules/pdf_parser.py:31-40 | when some page has text, every page's text appears unchanged, in page order, in the result |
| PdfText.OcrExtract | modules/pdf_parser.py:42-53 | the shipped OCR step yields `""` |
| PdfText.StubOcrYieldsEmpty | modules/pdf_parser.py:37-39 | with the OCR stub, a PDF without a text layer yields `""` and no error |
| Processed.StorePath | modules/processed_store.py:17 | a missing or empty path selects `processed.json`; any other path is kept |
| Processed.ProcessedStore.constructor | modules/processed_store.py:10-28 | the set is loaded once: the stored IDs, or empty when the file is missing or unreadable |
| Processed.ProcessedStore.HasProcessed | modules/processed_store.py:30-34 | an ID counts as processed exactly when it is in the in-memory set, whatever the file holds now; `MarkProcessed` makes it true |
| Processed.ProcessedStore.MarkProcessed | modules/processed_store.py:36-47 | callable in any state; the ID joins the in-memory set whatever happens on disk; a good write stores exactly the set, overwriting whatever another writer put there; a failed open leaves the file alone; a failed dump leaves it unreadable; other files are untouched |
| Processed.RestartAfterMark | modules/processed_store.py:36-47 | after a successful mark, a store reloaded from the same path has the ID |
| Processed.RestartAfterTruncatedWrite | modules/processed_store.py:42-47 | after a dump that fails part-way, a reloaded store is empty |
| Processed.InterleavedMarksLoseUpdate | modules/processed_store.py:10-47 | with two stores on one file, the one loaded first overwrites the ID the other marked: a reload has only its own ID |
| Output.NormaliseType | modules/writer.py:38-39 | the normalised type has no `#`, no whitespace at either end, and is no longer than the configured value |
| Output.NormaliseTypeIdempotent | modules/writer.py:39 | normalising twice changes nothing |
| Output.CutBeforeSeparator | modules/writer.py:39 | everything from the first `#` on is dropped |
| Output.StripTrailingBlanks | modules/writer.py:39 | `"sheets  "` strips to `"sheets"` |
| Output.CommentedTypeSelectsSheets | modules/writer.py:38-41 | `"sheets  # note"` normalises to `"sheets"` |
| Output.Configure | modules/writer.py:38-75 | an unknown type is rejected with that type; sheets is accepted exactly when the `sheets` section and its `spreadsheet_id` exist, and then carries that ID and the configured headers; airtable is accepted exactly when the section, `base_id`, `table_name` and a non-empty `api_key` or else `token` exist, and then carries those values with the API key winning; with the keys present, the only failure is the missing token |
| Output.MissingTypeRejected | modules/writer.py:38-75 | a config without `type` is rejected as the unknown type `""` |
| Output.HeaderInsertedOnce | modules/writer.py:54-62 | with a readable first row the header row is inserted at most once, the sheet then starts with it, and without headers nothing is inserted |
| Output.UnreadableFirstRowRepeatsHeader | modules/writer.py:57-62 | when the first row cannot be read, each construction inserts the header row again |
| Output.ProjectColumns | modules/writer.py:85-87 | a header-ordered row has one cell per header, `''` for a missing field, and ignores fields that are not headers |
| Output.ProjectOwnKeys | modules/writer.py:85-89 | projecting a record onto its own keys gives its values in insertion order |
| Output.Writer.constructor | modules/writer.py:50-62 | the sheet starts with the header row when headers are configured and the first row differs; nothing has been appended |
| Output.Writer.AppendRecord | modules/writer.py:77-96 | exactly one row (sheets) or one record (airtable) is added at the end and nothing else changes; the writer's invariant ties the destination to the log of appended records |
| Output.OpenWriter | modules/writer.py:10-75 | construction fails exactly when the configuration check fails, with the same error; otherwise a fresh writer in the checked mode whose worksheet has the header row inserted as `__init__` does, whose table is the existing one, and which has appended nothing |
| Output.InsertionOrderRowScenario | modules/writer.py:88-90 | without headers, `{'A': 1, 'B': 2, 'C': 3}` is written as the row `[1, 2, 3]` |
| Pipeline.Watcher.ListNewPdfs | modules/drive_watcher.py:36-49 | the whole listing is returned, whether or not a file was seen before |
| Pipeline.Watcher.DownloadFile | modules/drive_watcher.py:51-62 | returns the file's bytes and records the download in a ghost trace of downloaded IDs |
| Pipeline.UnflaggedMembers | modules/processing_chain.py:36-41 | a record is written exactly when it is one of the pass's records and its `needs_review` is falsy |
| Pipeline.UnflaggedKeepsAllWhenNoneFlagged | modules/processing_chain.py:36-41 | when no record is flagged, all of them are written, in order |
| Pipeline.UnflaggedLength | modules/processing_chain.py:35-42 | a pass writes at most one record per listed file |
| Pipeline.StubNeverFlags | modules/processing_chain.py:39-40 | with the LLM stub and no lender pattern named `needs_review`, no record is flagged |
| Pipeline.ProcessingChain.constructor | modules/processing_chain.py:27-32 | the chain holds its four collaborators, and each file's record is its parsed text, extracted |
| Pipeline.ProcessingChain.StubRecordNotFlagged | modules/processing_chain.py:37-40 | with the stubs, no listed file's record is flagged, whatever the document says |
| Pipeline.ProcessingChain.StubPipelineWritesEveryFile | modules/processing_chain.py:34-42 | with the stubs, a pass writes every listed file's record, in listing order |
| Pipeline.ProcessingChain.BuildRecord | modules/processing_chain.py:37-39 | download, parse and extract give the file's record; the file is downloaded once |
| Pipeline.ProcessingChain.ProcessFile | modules/processing_chain.py:37-41 | one iteration downloads the file once and appends its record unless flagged |
| Pipeline.ProcessingChain.Run | modules/processing_chain.py:34-42 | a pass downloads every listed file once, in order; it writes exactly the unflagged records, in order; the count is the listing's length |
| Pipeline.ProcessingChain.Invoke | modules/processing_chain.py:20-21 | calling the chain performs one pass |
| Pipeline.ProcessingChain.RunTwice | modules/processing_chain.py:34-42 | nothing prevents reprocessing: two passes download and write everything twice |

## Left out

- The regular-expression engine is left out: `re.search` is the parameter `search`. A pattern with no capture group at all (an `IndexError` from `match.group(1)`) cannot be expressed.
- The LLM client is left out: the LLM pass is a parameter. The shipped stub returns `{}`.
- PDF decoding (pdfplumber) and OCR (Tesseract) are left out: they are the two functions of `PdfBackend`. The shipped OCR stub returns `""`.
- The Drive API, credentials, `DriveWatcher.__init__` and the folder query are left out: the watcher is a fixed listing plus a map from file ID to bytes.
- gspread and Airtable clients are left out, along with credentials, authorisation and how a cell renders a value: a worksheet is a sequence of rows of values, a table a sequence of records.
- Exceptions raised by the Drive, parser, extractor or writer calls are left out. They abort the pass in the source, and the model's calls do not fail.
- `Output.Writer.AppendRecord`: the `RuntimeError` branch for an unknown mode is left out, because a writer only exists in one of the two modes.
- `Pipeline.ProcessingChain.constructor`: the chain is given its collaborators instead of building them from the configuration dict. A `None` configuration, which makes `config.get` fail, is left out.
- `Pipeline.ProcessingChain.Run`: returns the processed count as a number rather than the dict `{"processed": n}`.
- `Processed.ProcessedStore.constructor`: a JSON file holding something other than a list or a broken file (for example a dict, whose keys `set()` would load) is treated as unreadable.
- `Output.Configure`: a non-string `type` value is left out, where `split` raises; so is a config without `type` passed as `None`.
- `modules/indexer.py`, `modules/notifier.py`, `modules/models.py`, `modules/utils.py` and the configuration loading in `main.py` are not part of this model.
- Logging is left out.
