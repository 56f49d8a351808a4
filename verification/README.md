# xcresult report core, modelled in Dafny

The tool turns an Xcode result bundle into an HTML report. This project
models its core, all of it in `xcresult_gui_v6.py`:

- **Running `xcresulttool`** (`run_xcresulttool`, `invocation.dfy`).
  - Three command lines are tried in a fixed order: the summary output, the
    legacy full bundle, then the plain full bundle.
  - The first command that cannot be started, or that exits with status 0
    and prints something other than whitespace, decides the answer.
  - Otherwise the answer has no output, the last non-blank standard error
    and the last command line.
- **Walking the parsed document** (`deep_iter`, `traversal.dfy`). It yields
  every mapping of the JSON tree in pre-order.
- **Reading the counts** (`extract_counts`, `counts.dfy`).
  - Each mapping is tried against five key sets, in a fixed order.
  - A field goes through `int(unwrap(v) or 0)`.
  - A key set whose fields do not all convert is skipped.
  - (0, 0, 0) is the answer when nothing matches.
- **Reading the failures** (`_extract_details_from_summary`,
  `details.dfy`).
  - One "Failed" record comes from each `testFailures` entry that has a
    name.
  - The suite is the second-to-last `/`-segment of the identifier, else the
    target.
  - The failure text is cut to 100 characters.
- **Indexing the screenshots** (`_export_attachments`, `screenshots.dfy`).
  - The exported manifest becomes a test-id → file-names map.
  - A test's URL, when it differs from its identifier, is filed as a second
    key.
  - The fuzzy lookup `build_html` does for each detail row is modelled here
    too.
- **Rendering the page** (`build_html`, `report.dfy`).
  - The page is a logical view (`ReportOf`) plus its text (`Render`).
  - The method `BuildHtml` grows the text with `+=`, piece by piece, as the
    source does. It is proved equal to the rendering of the view.
  - The chart's data list read back from the page gives passed, failed and
    skipped, in that order.
- **Choosing the output file** (`_next_available_report_path`,
  `report_path.dfy`).
  - An existing report is never written over: the first free
    `<stem>_<n><suffix>` beside it is used instead.

`pytext.dfy` holds the Python string and integer behaviour the core relies
on: `isspace`, `strip`, `int()`, `str()`, `split`, `in`, `endswith` and
slicing. The behaviour modelled is that of Python 3.13. In
particular `pathlib` before Python 3.14 gives no suffix to a name that ends
in `.`. `json.dfy` holds the JSON tree and Python truthiness, `or`,
`dict.get` and iteration.

Where the program's documented intent and its code differ, the model follows the code:

- Values are put into the page exactly as given. Nothing is HTML-escaped
  (`Report.TitleVerbatim`).
- Counts may be negative when the document holds a negative number, since
  `int("-3")` is accepted.
- In the screenshot lookup, the three fallback tests are combined for each
  key in map order. They are not tried one test after another.

## Model

| member | source | states |
|---|---|---|
| Traversal.DeepIter | xcresult_gui_v6.py:361-369 | everything yielded is a mapping; a mapping is yielded first, before what is nested in it; a scalar yields nothing |
| Traversal.DeepIterYieldsMappings | xcresult_gui_v6.py:361-369 | a value is yielded exactly when it is a mapping occurring somewhere in the tree |
| Traversal.DeepIterItemsOrder | xcresult_gui_v6.py:367-369 | the walk of a list is the walk of its items in order (walking `a + b` = walking `a`, then `b`) |
| Traversal.DeepIterMembersOrder | xcresult_gui_v6.py:363-366 | member values are walked in document order |
| Json.OrTruthy | xcresult_gui_v6.py:395 | `a or b` is truthy exactly when `a` or `b` is; when it is falsy it is `b`, so a chain of `or` ends with its last value only when every earlier value is falsy |
| Json.Get | xcresult_gui_v6.py:383-384 | a lookup finds a value exactly when the key is present, and the value belongs to that key |
| Json.Iterate | xcresult_gui_v6.py:550 | `for x in v` works exactly on lists, strings and mappings; a list yields its items; a string or mapping yields strings |
| PyText.LStrip | xcresult_gui_v6.py:353 | removes the longest prefix of blanks, and what is left does not start with one; the blanks are the `isspace` characters for `lstrip`, and those `int()` skips for `int()` |
| PyText.RStrip | xcresult_gui_v6.py:353 | removes the longest suffix of blanks, and what is left does not end with one; the blanks are the `isspace` characters for `rstrip`, and those `int()` skips for `int()` |
| PyText.StripEmptyIffBlank | xcresult_gui_v6.py:353-356 | `s.strip()` is empty exactly when every character of `s` is whitespace |
| PyText.ParseIntText | xcresult_gui_v6.py:395-397 | `int()` of a number's decimal text gives the number back, also after leading whitespace that `int()` skips (any `isspace` character except U+001C..U+001F) |
| PyText.ParseRejectsWord | xcresult_gui_v6.py:395 | `int()` refuses text that starts with something other than whitespace it skips, a sign or a digit |
| PyText.SeparatorIsNotNumberBlank | xcresult_gui_v6.py:353-399 | U+001C is whitespace to `strip()` ("\x1c5".strip() is "5") but not to `int()`, which refuses "\x1c5" |
| PyText.IntTextInjective | xcresult_gui_v6.py:114 | distinct numbers have distinct decimal texts |
| PyText.Split | xcresult_gui_v6.py:467 | `split` gives at least one piece, and no piece contains the separator |
| PyText.JoinSplit | xcresult_gui_v6.py:467 | joining the pieces of a split with the separator gives back the text |
| PyText.ContainsAt | xcresult_gui_v6.py:680 | `sub in s` holds exactly when `sub` occurs at some position of `s` |
| PyText.Truncate | xcresult_gui_v6.py:473 | `s[:n]` is a prefix of `s` of length min(len(s), n) |
| Counts.CoerceFalsy | xcresult_gui_v6.py:395 | a falsy value (None, False, 0, "", [], {}) counts as 0 |
| Counts.CoerceNumber | xcresult_gui_v6.py:382-385 | a number counts as itself, bare or wrapped as `{"_value": n}` |
| Counts.CoerceNumericText | xcresult_gui_v6.py:395 | a string spelling a number counts as that number |
| Counts.CoerceRejectsWord | xcresult_gui_v6.py:394-400 | a string that starts with something other than whitespace, a sign or a digit ("ten") does not convert, so its key set is abandoned |
| Counts.CoerceRejectsContainers | xcresult_gui_v6.py:382-385 | a non-empty list and a doubly wrapped value do not convert: unwrapping happens once |
| Counts.FirstPatternIsFirst | xcresult_gui_v6.py:392-441 | a mapping yields nothing exactly when no key set yields counts, and otherwise the counts of the first key set that does |
| Counts.FirstMatch | xcresult_gui_v6.py:387-441 | nothing is found exactly when no mapping yields counts; otherwise the first mapping in walk order that yields counts decides |
| Counts.ExtractCounts | xcresult_gui_v6.py:372-443 | the counts of the first mapping in pre-order that yields any, else (0, 0, 0); never fails |
| Counts.RootMappingWins | xcresult_gui_v6.py:387-398 | a top-level mapping that yields counts decides before anything nested in it |
| Counts.FieldDefault | xcresult_gui_v6.py:397 | a missing or falsy field counts as 0 |
| Counts.FirstPatternWins | xcresult_gui_v6.py:393-398 | the passedTests/failedTests key set wins when it yields counts |
| Counts.SummaryTestsCounts | xcresult_gui_v6.py:393-398 | a mapping with passedTests and failedTests gives their converted values, and the converted skippedTests (0 when missing) as the skipped count |
| Counts.SummaryTestsPattern | xcresult_gui_v6.py:393-398 | passedTests and failedTests give their values; a missing or falsy skippedTests gives 0 |
| Counts.TotalTestCountPattern | xcresult_gui_v6.py:403-409 | failedTests is preferred over testsFailedCount and skippedTests over testsSkippedCount; passed = max(total − failed − skipped, 0) ≥ 0 |
| Counts.FailedCoercionFallsThrough | xcresult_gui_v6.py:394-411 | a key set whose field fails to convert is skipped and the next key set decides: {"passedTests": "many", "failedTests": 1, "totalTestCount": 5} gives (4, 1, 0) |
| Counts.LaterMappingDecides | xcresult_gui_v6.py:387-421 | a mapping whose keys fit no key set is passed over and the next one decides: [{"passed": []}, {"passed": 3, "failed": 0}] gives (3, 0, 0) |
| Counts.ScenarioSummary | xcresult_gui_v6.py:393-398 | {"passedTests": 10, "failedTests": 2, "skippedTests": 1} gives (10, 2, 1) |
| Counts.ScenarioTotal | xcresult_gui_v6.py:403-409 | {"totalTestCount": 100, "failedTests": 5} gives (95, 5, 0) |
| Counts.ScenarioEmpty | xcresult_gui_v6.py:443 | {} gives (0, 0, 0) |
| Details.SuiteOfThree | xcresult_gui_v6.py:465-472 | an identifier `…/<suite>/<test>` gives that suite when it is non-empty, else the target |
| Details.SuiteOfTwo | xcresult_gui_v6.py:465-472 | an identifier `<suite>/<test>` gives its first segment |
| Details.SuiteFromIdentifier | xcresult_gui_v6.py:465-472 | the suite rules together, including: an identifier without '/' falls back to the target |
| Details.RecordShape | xcresult_gui_v6.py:458-475 | an entry is skipped exactly when it is not a mapping or has neither a truthy testName nor a truthy testIdentifierString; a record is "Failed"; its name is testName or else testIdentifierString; its identifier is testIdentifierString, else testIdentifierURL, else ""; its suite comes from that identifier with targetName as the fallback; its failure text is the first 100 characters of failureText, or "" when that is absent |
| Details.RecordsAreFailures | xcresult_gui_v6.py:469-475 | every record is "Failed", has a name and a failure text of at most 100 characters |
| Details.RecordsCount | xcresult_gui_v6.py:456-475 | at most one record per entry, and none exactly when every entry is skipped |
| Details.ExtractDetails | xcresult_gui_v6.py:446-479 | the entries are walked in order, as the function specifying them says; a non-None result is a non-empty list of named "Failed" records |
| Details.NoDetails | xcresult_gui_v6.py:452-456 | no details when the input is not a mapping, or testFailures is missing or not a list |
| Details.RecordOfTexts | xcresult_gui_v6.py:460-475 | an entry with a non-empty testName, a testIdentifierString, a targetName that is a string or absent, and a failureText gives the record (name, "Failed", suite from identifier and target, failure text cut to 100 characters, identifier) |
| Details.ScenarioFooDetails | xcresult_gui_v6.py:456-479 | a summary with one failure entry gives exactly its record, with the suite taken from the identifier |
| Screenshots.Find | xcresult_gui_v6.py:677 | `map.get(id)` finds something exactly when the key is present, and gives that key's files |
| Screenshots.FindAt | xcresult_gui_v6.py:677 | with distinct keys, a lookup gives the files of the entry holding the key |
| Screenshots.PutFind | xcresult_gui_v6.py:554 | a store gives the key the new files; every other key keeps its files |
| Screenshots.PutKeys | xcresult_gui_v6.py:554 | a key already present keeps its place; a new key goes last (dict insertion order) |
| Screenshots.PutKeepsShape | xcresult_gui_v6.py:553-558 | a store keeps keys distinct, and storing a non-empty key and list keeps every key and list non-empty |
| Screenshots.DetailsList | xcresult_gui_v6.py:532-541 | a list manifest is its own entry list; a mapping gives the first truthy of testAttachmentDetails, testAttachmentDetailsList and attachments, else an empty list; anything else gives no entries |
| Screenshots.FilesOf | xcresult_gui_v6.py:548-552 | at most one file name per attachment, and every name is non-empty |
| Screenshots.FileOf | xcresult_gui_v6.py:551-552 | a record contributes nothing exactly when it is not a mapping or its exportedFileName is falsy; a name it contributes is its exportedFileName, a non-empty string |
| Screenshots.FilesOfAppend | xcresult_gui_v6.py:550-552 | the names of a joined list are the names of its first part followed by those of its second: the names keep the records' order |
| Screenshots.FilesOfNames | xcresult_gui_v6.py:550-552 | every name collected is the exportedFileName of some record, and every record with a truthy exportedFileName contributes it |
| Screenshots.IndexEntryKeepsShape | xcresult_gui_v6.py:542-558 | one entry keeps the map free of duplicate keys, empty keys and empty lists |
| Screenshots.IndexEntriesShape | xcresult_gui_v6.py:542-558 | every map built from a manifest has distinct non-empty keys, each with a non-empty list |
| Screenshots.UrlAlias | xcresult_gui_v6.py:553-558 | an entry whose identifier and URL differ files its names under both; no other key changes |
| Screenshots.SingleKeyEntry | xcresult_gui_v6.py:544-558 | an entry with only an identifier, or only a URL, files its names under that one key and changes no other key |
| Screenshots.SkippedEntry | xcresult_gui_v6.py:543-553 | an entry that is not a mapping, or has no identifier or no exported names, leaves the map as it is |
| Screenshots.ScalarManifest | xcresult_gui_v6.py:532-561 | a manifest that is neither a list nor a mapping gives no map |
| Screenshots.IndexManifest | xcresult_gui_v6.py:530-561 | the entries and each entry's attachments are walked in order, filling the map as the function specifying it says; a map returned is non-empty, with distinct non-empty keys and non-empty lists |
| Screenshots.FileEntry | xcresult_gui_v6.py:542-558 | one pass of the entry loop changes the map as the entry's specification says |
| Screenshots.CollectFileNames | xcresult_gui_v6.py:549-551 | the attachment loop collects the file names the attachment records specify, in order |
| Screenshots.FirstMatching | xcresult_gui_v6.py:679-682 | finds something exactly when some key matches, and gives the files of the first key in map order that matches |
| Screenshots.EmptyIdMatchesAll | xcresult_gui_v6.py:680 | the empty identifier matches every key |
| Screenshots.AsWrittenEmptyIdTakesFirstKey | xcresult_gui_v6.py:677-682 | as written, a detail without an identifier gets the first key's screenshots from any map with non-empty keys |
| Screenshots.AsWrittenEmptyIdCounterexample | xcresult_gui_v6.py:677-682 | the as-written lookup with identifier "" in {"SuiteA/testA": ["testA_1.png"]} gives ["testA_1.png"] |
| Screenshots.FindShotsSource | xcresult_gui_v6.py:677-682 | screenshots shown belong to a key equal to the identifier, or to one matching a non-empty identifier; an empty identifier gets none |
| Screenshots.FindShotsAgrees | xcresult_gui_v6.py:677-682 | for a non-empty identifier the corrected lookup is the source's lookup |
| Screenshots.ExactKeyFirst | xcresult_gui_v6.py:677-678 | a key equal to the identifier that has screenshots gives them before any other key is tried, in the source's lookup and in the corrected one |
| Screenshots.ScanKeys | xcresult_gui_v6.py:679-682 | the key loop stops at the first key in map order that matches, and gives its files |
| Screenshots.LookupShots | xcresult_gui_v6.py:677-682 | the loop tries the exact key first, then the keys in order until one matches, and gives what the corrected lookup specifies |
| Report.ImagesOf | xcresult_gui_v6.py:689-691 | one image per file, in order, with source `<dir>/<file>` and the file name as its alt text |
| Report.TestRowsInItem | xcresult_gui_v6.py:665-697 | a detail contributes exactly its own test row |
| Report.ItemRowsShape | xcresult_gui_v6.py:665-697 | a detail gives its test row, then at most one screenshot row, which spans 4 or 3 columns and shows at most ten images |
| Report.RowsFitHeader | xcresult_gui_v6.py:650-697 | every test row has a failure cell exactly when the table has the Failure column; every screenshot row follows a test row, spans the table and shows at most ten images |
| Report.RowsTestOrder | xcresult_gui_v6.py:658-674 | the test rows of the table are those of the details, one per detail, in order |
| Report.RowsShape | xcresult_gui_v6.py:658-697 | the row-order and row-shape properties together |
| Report.TableShape | xcresult_gui_v6.py:636-697 | the Failure column is there exactly when some detail has a failure text; the note says screenshots exactly when there is a gallery; screenshot rows span exactly the header's columns |
| Report.ShotRowCounts | xcresult_gui_v6.py:689-693 | a screenshot row shows the first min(n, 10) files in order and counts the rest in its note, which appears exactly when there are more than ten |
| Report.ReportSummary | xcresult_gui_v6.py:580-629 | the tiles are Total = passed + failed + skipped, Passed, Failed and Skipped in that order; the chart holds passed, failed, skipped; a table appears exactly when the details are a non-empty list |
| Report.ParseJoin | xcresult_gui_v6.py:714 | parsing the written chart list (`p, f, s`) gives the numbers back |
| Report.ListReadBack | xcresult_gui_v6.py:714 | the list between the last `[` and a closing text that ends a page reads back as the numbers written there |
| Report.ChartRoundTrip | xcresult_gui_v6.py:704-730 | the chart data read back from a rendered page, which ends with the script and footer text through `</html>`, are the report's chart data |
| Report.RenderEndsDocument | xcresult_gui_v6.py:714-730 | the rendered page ends with the text after the data list, through the closing `</html>` line |
| Report.SummaryStartsWithTitle | xcresult_gui_v6.py:582-586 | the summary card opens with the fixed head and the title |
| Report.TitleVerbatim | xcresult_gui_v6.py:582-586 | the title reaches the page right after the fixed head exactly as given: nothing is escaped |
| Report.AppendImages | xcresult_gui_v6.py:689-691 | the image loop appends the tags of the images of the files, in order |
| Report.ShotRowText | xcresult_gui_v6.py:683-697 | a screenshot row is written as its opening, the tags of the first ten images, a note on the rest when there are more than ten, and its closing |
| Report.AppendShotRow | xcresult_gui_v6.py:683-697 | the screenshot row appended is the rendering of the row holding the first ten images and the count of the rest |
| Report.AppendTestRow | xcresult_gui_v6.py:664-674 | the test row appended is the rendering of the detail's row, with a failure cell exactly when the table has the column |
| Report.AppendItem | xcresult_gui_v6.py:658-697 | the text appended for a detail renders its test row, then its screenshot row when the lookup finds files |
| Report.ColumnsText | xcresult_gui_v6.py:647-652 | the header cells are Test, Suite, Status, and Failure exactly when there are failures |
| Report.AppendTableHead | xcresult_gui_v6.py:640-657 | the text appended is the card opening, the note and the header cells of the columns |
| Report.AppendDetails | xcresult_gui_v6.py:636-701 | the details card appended is the rendering of the table of the details, row by row in order |
| Report.SummaryText | xcresult_gui_v6.py:582-633 | the summary card is the fixed text with the title (twice), the four tiles in order and the source |
| Report.AppendSummary | xcresult_gui_v6.py:580-633 | the text built for the summary card is the summary of the report of the arguments |
| Report.BuildHtml | xcresult_gui_v6.py:564-731 | the page built by `+=` is exactly the rendering of the report of the arguments; the chart data read back from it are passed, failed, skipped |
| Invocation.Candidates | xcresult_gui_v6.py:338-342 | three command lines, each starting with the xcrun path |
| Invocation.Verdict | xcresult_gui_v6.py:350-354 | a command that cannot start gives no output; a success gives its output and standard error; either way the command line is that command's |
| Invocation.AttemptReachesDecisive | xcresult_gui_v6.py:346-354 | the loop passes over indecisive runs to the first decisive one |
| Invocation.FirstDecisiveDecides | xcresult_gui_v6.py:346-354 | the first command that cannot start or succeeds decides the answer; the outcomes after it play no part |
| Invocation.NoneDecisive | xcresult_gui_v6.py:346-359 | when no command decides, the answer has no output, the last non-blank standard error of all runs and the last command line |
| Invocation.OutputMeansSuccess | xcresult_gui_v6.py:353-354 | an answer with output comes from a run with status 0 and non-blank output, and carries that run's output |
| Invocation.RunXcresulttool | xcresult_gui_v6.py:335-359 | the loop gives the answer the recursive definition specifies; output returned is never blank |
| Invocation.AttemptCommand | xcresult_gui_v6.py:345-359 | the command line the answer reports is the command line of one of the candidates tried |
| Invocation.ReportedXcrun | xcresult_gui_v6.py:336-359 | whichever candidate decides, the reported command line starts with the xcrun found on the search path, or with /usr/bin/xcrun when none was found, followed by `xcresulttool get` |
| Invocation.CommandLineSnoc | xcresult_gui_v6.py:347 | `" ".join` puts one more word at the end after a space |
| Invocation.SummaryCommandLine | xcresult_gui_v6.py:339-347 | the summary command line is its words separated by single spaces |
| Invocation.SummaryPreferred | xcresult_gui_v6.py:339-354 | when the summary command succeeds, its output is the answer and its command line is reported |
| ReportPath.Dir | xcresult_gui_v6.py:110 | the parent part ends with '/' or is empty, and the rest of the path holds no '/' |
| ReportPath.StemSuffix | xcresult_gui_v6.py:111-112 | stem + suffix = name; a suffix is a dot and at least one more character with no further dot |
| ReportPath.Extension | xcresult_gui_v6.py:112 | the name's own suffix when it has one, else ".html"; either way a dot followed by at least one character and no further dot |
| ReportPath.NumberedDistinct | xcresult_gui_v6.py:113-115 | different numbers give different paths |
| ReportPath.NumberedShape | xcresult_gui_v6.py:114-116 | a numbered path stays in the same directory, is named stem_n + extension, and ends with the extension |
| ReportPath.NumberedExample | xcresult_gui_v6.py:105-116 | "output/report.html" is followed by "output/report_1.html" |
| ReportPath.NumberedBareExample | xcresult_gui_v6.py:112-116 | "output/report" is followed by "output/report_2.html" |
| ReportPath.NextAvailableReportPath | xcresult_gui_v6.py:105-116 | the result never exists; it is the path itself when that does not exist, otherwise the numbered path with the smallest n ≥ 1 that does not exist |
| ReportPath.Tried | xcresult_gui_v6.py:113-115 | the numbered paths tried are distinct and all exist, so there are no more of them than existing paths: the search ends |

## Left out

- The GUI, PDF export, log files (`_log` and every `log_path` parameter), writing the report and creating directories are not modelled. Neither is running `xcresulttool export attachments` or reading and parsing `manifest.json` (lines 482-529). The screenshot model starts from the parsed manifest.
- Running a process is not modelled. `Invocation.RunXcresulttool` takes each command's outcome as an input, in candidate order. The result of `shutil.which("xcrun")` is the parameter `found`.
- Invocation.RunXcresulttool: `os.path.abspath` is not applied; the bundle path is used as given.
- ReportPath.NextAvailableReportPath: the file system is the set of existing paths. Paths are taken in the normal form `pathlib` prints them in. A doubled or trailing separator, or a "." segment, is not normalised.
- PyText.ParseInt: only the ASCII digits 0-9 are digits, while Python's `int()` also accepts other Unicode decimal digits (`int("٣") == 3`). Python's limit of 4300 digits on a decimal conversion is not modelled either: longer texts convert here.
- PyText.ParseRejectsWord: "a digit" means an ASCII digit, as in `PyText.ParseInt`; a text that starts with another Unicode decimal digit is rejected here but converted by Python.
- Counts.CoerceRejectsWord: the same ASCII-only reading of "digit" as `PyText.ParseRejectsWord`.
- JSON floats are not part of the tree, so `int()` of a float is not modelled.
- Json.Get: for duplicate keys in one object, the model reads the first member while `json.loads` keeps the last. Documents are taken with distinct keys per object.
- Details.ExtractDetails: a truthy value that is not a string, where a name, identifier, target or failure text is expected, ends the model with a `NotText` fault. Python would carry the value through `str()` or raise. The same holds for `Screenshots.IndexManifest` with identifiers and exported file names.
- Report.BuildHtml: the stylesheet rules (source lines 590-618) are left out of the page text; no value is interpolated into them. The chart script and the footer are kept in full.
- Report.BuildHtml: for the screenshot lookup it uses the corrected rule of the finding below. The only difference from the source is for a detail without an identifier.

## Findings

| source | as written | input that shows it | evidently intended | confidence | as-written member | corrected member |
|---|---|---|---|---|---|---|
| xcresult_gui_v6.py:677-682 | the fallback search also runs for an empty identifier, and `"" in key` holds for every key | a failure entry with a testName but no identifier, and the map {"SuiteA/testA": ["testA_1.png"]}: the row of that failure shows testA's screenshot | search the other keys only for a non-empty identifier, as the last-segment test already does | not executed | Screenshots.AsWrittenEmptyIdCounterexample | Screenshots.FindShotsSource |
