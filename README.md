# omni-guard core logic in Dafny

This project models the deterministic core of omni-guard, a Django security dashboard, and proves properties of that model. The core has three parts.

- **Dependency analysis.**
  - An upload is validated by its file names and assigned to the npm or PyPI ecosystem (`upload_dependency_view`).
  - Its manifests are parsed: package.json-style JSON, requirements.txt and the `[packages]` section of a Pipfile (`parse_dependency_files`).
  - Every dependency is sent to an OSV-style advisory service, and each advisory becomes a finding (`check_vulnerabilities`).
  - `compare_versions` is a one-operator version-range predicate.
- **Infrastructure grading.** A simulated port scan of a target is graded from A to F by a clamped penalty score (`scan_target`, `calculate_grade`).
- **Endpoint monitoring.**
  - An agent's reported hooks are checked against a whitelist (`analyze_hooks`).
  - The agent table is updated by a heartbeat API, an offline sweep and a forced disconnect.

Modules: `Wrappers` (Option), `Seqs` (folds), `Text` (the Python string builtins, ASCII only), `VersionRanges`, `DependencyParsing`, `VulnerabilityCheck`, `DependencyViews`, `Infrastructure`, `EndpointLogic` and `EndpointViews`.

Where the source works by looping and mutating, the model is an imperative method. Each such method is proved equal to a recursive specification function, and lemmas state the properties of that function.

- `ParseDependencyFiles`, `CheckVulnerabilities` and `ValidateUpload` follow the source's early returns.
- `CompareVersions` keeps the `while … append(0)` padding.
- `AnalyzeHooks` keeps its nested loop with its `break`.
- The agent table is a class, `EndpointViews.AgentTable`, whose methods update a `map` of agents and a `seq` of heartbeat rows.

External effects are parameters:
- `json.loads` is a function from text to an optional JSON value.
- The OSV service is a function from the request payload to a reply.
- A file's UTF-8 decoding is an optional text.
- The random picks of a scan are a sequence of indices and a coin.
- Time is an integer number of minutes.

Python exceptions are explicit results:
- `None` where `parse_dependency_files` would raise;
- `ErrorPage` and `NoResult` for the two early returns of `check_vulnerabilities`;
- `Raised` and `ViewRaised` where the upload view raises.

## Model

| member | source | states |
|---|---|---|
| VersionRanges.MatchRange | dependency_analysis/utils.py:87-91 | definition, no contract: the operator and bound that `re.match` captures, or no match |
| VersionRanges.NumericParts | dependency_analysis/utils.py:93-94 | definition, no contract: the integers of the all-digit dot-separated segments |
| VersionRanges.Padded | dependency_analysis/utils.py:96-98 | definition, no contract: the parts after padding with zeros to length three |
| VersionRanges.LexLess | dependency_analysis/utils.py:100 | definition, no contract: Python's `<` on integer lists |
| VersionRanges.Holds | dependency_analysis/utils.py:100-104 | definition, no contract: the comparison the operator selects |
| VersionRanges.VersionMatches | dependency_analysis/utils.py:79-109 | definition, no contract: the value `compare_versions` returns |
| VersionRanges.FirstAlternative | dependency_analysis/utils.py:87 | the alternative the regular expression commits to is the first one in pattern order that prefixes the range; None exactly when none does |
| VersionRanges.UpToNewline | dependency_analysis/utils.py:87 | the `(.*)` group captures a prefix of the rest with no newline, stopping at the first newline |
| VersionRanges.CompareVersions | dependency_analysis/utils.py:79-109 | the padding loops and the operator dispatch return exactly `VersionMatches(current, range)` |
| VersionRanges.RangeOperator | dependency_analysis/utils.py:87-91 | for every range: a leading `<` is read as `<` and a leading `>` as `>` (so `<=`/`>=` never), `==` as equality, and anything else does not match |
| VersionRanges.NeverLeOrGe | dependency_analysis/utils.py:87-103 | the `<=` and `>=` branches are unreachable |
| VersionRanges.NoOperatorNeverMatches | dependency_analysis/utils.py:87-89 | a range with no leading `<`, `>` or `==` is False for every version |
| VersionRanges.PaddedShape | dependency_analysis/utils.py:96-98 | padding keeps the parts, appends zeros up to length three and never truncates longer lists |
| VersionRanges.LexLessIrreflexive | dependency_analysis/utils.py:100 | the list order is irreflexive |
| VersionRanges.LexLessTransitive | dependency_analysis/utils.py:100 | the list order is transitive |
| VersionRanges.LexLessTotal | dependency_analysis/utils.py:100-104 | any two distinct lists are ordered one way or the other, so `<=` means "less or equal" |
| VersionRanges.SplitThree | dependency_analysis/utils.py:93 | a version of three dot-free segments splits on `.` into those segments |
| VersionRanges.SplitTwo | dependency_analysis/utils.py:93 | a version of two dot-free segments splits on `.` into those segments |
| VersionRanges.ThreeSegments | dependency_analysis/utils.py:93-94 | the parts of a three-segment version are its all-digit segments |
| VersionRanges.ThreePartVersion | dependency_analysis/utils.py:93-94 | `a.b.c` with all-digit segments gives `[int(a), int(b), int(c)]` |
| VersionRanges.NonDigitSegmentsDropped | dependency_analysis/utils.py:93-94 | "v1.2.3" gives [2, 3] and "1.0rc1" gives [1] |
| VersionRanges.LeadingLetterDropped | dependency_analysis/utils.py:93 | "v1.2.3" gives [2, 3] |
| VersionRanges.TrailingTagDropped | dependency_analysis/utils.py:93 | "1.0rc1" gives [1] |
| VersionRanges.Parts2200 | dependency_analysis/utils.py:93-94 | the bound "2.20.0" gives the parts [2, 20, 0] |
| VersionRanges.PartsOneTwo | dependency_analysis/utils.py:93-94 | "1.2" gives the parts [1, 2] |
| VersionRanges.LeadingLess | dependency_analysis/utils.py:87-91 | a one-line range starting with `<` has operator `<` and the rest as bound |
| VersionRanges.LeadingEquals | dependency_analysis/utils.py:87-91 | a one-line range starting with `==` has operator `==` and the rest as bound |
| VersionRanges.NoNewlineCaptured | dependency_analysis/utils.py:87 | text without a newline is captured whole |
| VersionRanges.Requests2200 | dependency_analysis/utils.py:11 | 1.0.0 is inside "<2.20.0" and 3.0.0 is not |
| VersionRanges.Requests200 | dependency_analysis/utils.py:12 | 1.0.0 is inside "<2.0.0" and 3.0.0 is not |
| VersionRanges.LodashRange | dependency_analysis/utils.py:19 | 4.17.20 is inside "<4.17.21" and 4.17.21 is not |
| VersionRanges.MockRangesAsTestVectors | dependency_analysis/utils.py:9-21 | the MOCK_VULNDB ranges classify these versions as the advisories intend |
| VersionRanges.PaddingEquates | dependency_analysis/utils.py:97-104 | ("1.2", "==1.2.0") is True |
| VersionRanges.LessEqualReadAsLess | dependency_analysis/utils.py:87-100 | ("1.0.0", "<=1.0.0") is False: the bound "=1.0.0" loses its first segment |
| VersionRanges.PartsEqualsBound | dependency_analysis/utils.py:94 | the bound "=1.0.0" gives the parts [0, 0] |
| VersionRanges.IntendedOperator | dependency_analysis/utils.py:82-87 | with the two-character operators tried first, `<=` and `>=` are read when present, and every other range reads as before |
| VersionRanges.IntendedGreaterEqual | dependency_analysis/utils.py:82-87 | under the intended order a leading `>=` is read as `>=` |
| VersionRanges.IntendedOther | dependency_analysis/utils.py:82-87 | under the intended order a range without `<=` or `>=` reads as before |
| VersionRanges.IntendedMeaning | dependency_analysis/utils.py:82-103 | the intended predicate agrees with the source off `<=`/`>=`, and there means less-or-equal and greater-or-equal of the padded parts |
| VersionRanges.IntendedLeadingLessEqual | dependency_analysis/utils.py:82-87 | under the intended order a one-line range starting with `<=` has operator `<=` and the rest as bound |
| VersionRanges.IntendedLessEqual | dependency_analysis/utils.py:82-101 | under the intended order ("1.0.0", "<=1.0.0") is True |
| Text.Lower | dependency_analysis/utils.py:33 | `str.lower` keeps the length and lower-cases each ASCII capital |
| Text.Find | dependency_analysis/utils.py:57 | the first occurrence of the substring, None when there is none |
| Text.Split | dependency_analysis/utils.py:58 | `str.split` gives at least one piece, and two or more exactly when the separator occurs |
| Text.SplitJoin | dependency_analysis/utils.py:58 | joining the pieces with the separator gives back the text |
| Text.SplitPieceFree | dependency_analysis/utils.py:58 | no piece contains the separator |
| Text.SplitHead | dependency_analysis/utils.py:58-59 | the text starts with the first piece, the separator and the second piece |
| Text.SplitFirstFree | dependency_analysis/utils.py:58 | the first piece never contains the separator |
| Text.SplitOnce | dependency_analysis/utils.py:58 | a text with exactly one first occurrence of the separator and none after splits into the two sides |
| Text.FirstPieceEnd | dependency_analysis/utils.py:63 | the first piece ends at the end of the text or at an occurrence of the separator |
| Text.LineEnd | dependency_analysis/utils.py:53 | the end of a line is the first line break or the end of the text |
| Text.SingleLine | dependency_analysis/utils.py:53 | a non-empty text with no line break is one line |
| Text.TrimStart | dependency_analysis/utils.py:54 | `lstrip` removes exactly the leading whitespace |
| Text.TrimEnd | dependency_analysis/utils.py:54 | `rstrip` removes exactly the trailing whitespace |
| Text.Strip | dependency_analysis/utils.py:54 | the stripped text neither starts nor ends with whitespace |
| Text.StripUnchanged | dependency_analysis/utils.py:70 | text without outer whitespace is its own strip |
| DependencyParsing.Get | dependency_analysis/utils.py:40 | definition, no contract: `d.get(key)` on a dict as its list of items |
| DependencyParsing.GetOrEmpty | dependency_analysis/utils.py:40 | definition, no contract: `d.get(key, {})` |
| DependencyParsing.Keys | dependency_analysis/utils.py:41 | definition, no contract: the keys of a dict in insertion order |
| DependencyParsing.NewKeys | dependency_analysis/utils.py:41 | definition, no contract: the keys an update adds, in the order it adds them |
| DependencyParsing.Update | dependency_analysis/utils.py:41 | definition, no contract: `d.update(e)` for a dict `e` |
| DependencyParsing.UpdateWith | dependency_analysis/utils.py:41 | definition, no contract: `d.update(other)` for any decoded value |
| DependencyParsing.MergedDependencies | dependency_analysis/utils.py:38-41 | definition, no contract: `dependencies` updated by `devDependencies`, or a raise |
| DependencyParsing.JsonItem | dependency_analysis/utils.py:45-48 | definition, no contract: one merged item as a dependency with its cleaned version |
| DependencyParsing.JsonItems | dependency_analysis/utils.py:44-48 | definition, no contract: the dependencies of all merged items in order |
| DependencyParsing.JsonFile | dependency_analysis/utils.py:36-48 | definition, no contract: what a `.json` file contributes |
| DependencyParsing.TxtLine | dependency_analysis/utils.py:54-59 | definition, no contract: what one requirements line contributes |
| DependencyParsing.TxtFile | dependency_analysis/utils.py:50-59 | definition, no contract: what a `.txt` file contributes |
| DependencyParsing.PipfileSection | dependency_analysis/utils.py:63 | definition, no contract: the text between `[packages]` and `[dev-packages]`, or a raise |
| DependencyParsing.PipfileLine | dependency_analysis/utils.py:66-70 | definition, no contract: what one Pipfile line contributes |
| DependencyParsing.PipfileFile | dependency_analysis/utils.py:61-70 | definition, no contract: what a Pipfile contributes |
| DependencyParsing.FileDependencies | dependency_analysis/utils.py:33-70 | definition, no contract: what one uploaded file contributes, by its lower-cased name |
| DependencyParsing.ParseAll | dependency_analysis/utils.py:31-75 | definition, no contract: the concatenated contributions, or a raise |
| DependencyParsing.ParsedDependencies | dependency_analysis/utils.py:23-77 | definition, no contract: the value `parse_dependency_files` returns |
| DependencyParsing.SetItem | dependency_analysis/utils.py:41 | `d[key] = value` keeps every existing key at its position |
| DependencyParsing.GetSetItem | dependency_analysis/utils.py:41 | after setting a key, that key reads the new value and every other key its old one |
| DependencyParsing.GetAbsent | dependency_analysis/utils.py:40-41 | a key absent from a dict reads as missing |
| DependencyParsing.GetUpdate | dependency_analysis/utils.py:41 | after `update`, a key takes the value from `devDependencies` when present there, else keeps its old one |
| DependencyParsing.SetItemKeys | dependency_analysis/utils.py:41 | `d[key] = value` leaves the keys unchanged when `key` is present and appends it when it is not |
| DependencyParsing.UpdateKeys | dependency_analysis/utils.py:41 | the keys after `update` are those of `dependencies` in their places, followed by the new keys of `devDependencies` in its order |
| DependencyParsing.NewKeysShape | dependency_analysis/utils.py:41 | the appended keys are exactly the keys of `devDependencies` missing from `dependencies`, each once |
| DependencyParsing.DistinctKeysIff | dependency_analysis/utils.py:41 | a dict's items have distinct keys exactly when its key list is duplicate-free |
| DependencyParsing.UpdateDistinct | dependency_analysis/utils.py:41 | `update` keeps the keys distinct |
| DependencyParsing.GetFound | dependency_analysis/utils.py:40 | a value that `get` finds is stored under that key |
| DependencyParsing.JsonItemsShape | dependency_analysis/utils.py:44-48 | when every version is a string, item `i` gives dependency `i`, with the item's name and cleaned version |
| DependencyParsing.DevDependenciesOverride | dependency_analysis/utils.py:38-48 | for any distinct-keyed `dependencies` and `devDependencies`: a package gets the `devDependencies` version when listed there and the `dependencies` version otherwise, and no name occurs twice in the result |
| DependencyParsing.CleanVersion | dependency_analysis/utils.py:47 | the cleaned version holds only digits and dots and is no longer than the original |
| DependencyParsing.CleanKeepsDigits | dependency_analysis/utils.py:47 | a version of digits and dots is unchanged, so cleaning is idempotent |
| DependencyParsing.CleanAppend | dependency_analysis/utils.py:47 | cleaning works character by character |
| DependencyParsing.CleanExamples | dependency_analysis/utils.py:46-47 | "^4.17.21" cleans to "4.17.21" and "*" to "" |
| DependencyParsing.ConcatAssociative | dependency_analysis/utils.py:28 | appending partial results is associative |
| DependencyParsing.JsonItemsFailure | dependency_analysis/utils.py:45-48 | one non-string version makes the JSON file raise |
| DependencyParsing.AppendJsonItems | dependency_analysis/utils.py:44-48 | the loop appends each item's cleaned dependency in dict order, or raises |
| DependencyParsing.AppendJsonText | dependency_analysis/utils.py:36-48 | a JSON file appends its merged items, or raises where decoding, merging or cleaning does |
| DependencyParsing.AppendTxtLine | dependency_analysis/utils.py:54-59 | one requirements line appends its dependency, if any |
| DependencyParsing.AppendTxtLines | dependency_analysis/utils.py:53-59 | the loop appends the dependencies of all lines in order |
| DependencyParsing.AppendPipfileLine | dependency_analysis/utils.py:66-70 | one Pipfile line appends its dependency, if any |
| DependencyParsing.AppendPipfileLines | dependency_analysis/utils.py:64-70 | the loop appends the dependencies of all section lines in order |
| DependencyParsing.AppendPipfileText | dependency_analysis/utils.py:61-70 | a Pipfile appends its section's dependencies, or raises without `[packages]` |
| DependencyParsing.AppendFile | dependency_analysis/utils.py:33-70 | one file dispatched on its lower-cased name appends its dependencies, or raises |
| DependencyParsing.ParseDependencyFiles | dependency_analysis/utils.py:23-77 | the result is the concatenation of the per-file results, or `[]` once any file raises |
| DependencyParsing.ParseAllFailure | dependency_analysis/utils.py:31-75 | one failing file makes the whole batch fail |
| DependencyParsing.FailureDiscardsAll | dependency_analysis/utils.py:73-75 | a failure anywhere returns `[]`, discarding what earlier files gave |
| DependencyParsing.ParseAllAppend | dependency_analysis/utils.py:32 | the files are parsed in order: a batch `a + b` gives `a`'s result then `b`'s |
| DependencyParsing.OtherFilesContributeNothing | dependency_analysis/utils.py:36-61 | a decodable file matching none of the three patterns contributes nothing |
| DependencyParsing.UndecodableFails | dependency_analysis/utils.py:34-75 | a file that is not valid UTF-8 empties the result |
| DependencyParsing.TxtLineShape | dependency_analysis/utils.py:54-59 | a line's dependency is the stripped line's text before the first `==` and the text up to the next; neither contains `==` |
| DependencyParsing.TxtLineRoundTrip | dependency_analysis/utils.py:54-59 | the line `name==version` gives back that name and version |
| DependencyParsing.TxtLineSplit | dependency_analysis/utils.py:58 | proof step: `name==version` splits on `==` into exactly the name and the version |
| DependencyParsing.TxtFileOneLine | dependency_analysis/utils.py:53-59 | a one-line requirements file gives exactly that dependency |
| DependencyParsing.PipfileLineRoundTrip | dependency_analysis/utils.py:66-70 | the line `name = version` gives back that name and version |
| DependencyParsing.FirstAssignment | dependency_analysis/utils.py:69 | the split happens at the first " = ", right after a name without whitespace |
| DependencyParsing.PipfileLineAt | dependency_analysis/utils.py:66-70 | a non-blank, non-comment line splits at its first " = " with both sides stripped |
| DependencyParsing.NotBlankNorComment | dependency_analysis/utils.py:66 | a line starting with neither whitespace nor `#` is not skipped |
| DependencyParsing.TrimmedStart | dependency_analysis/utils.py:66 | stripping keeps a non-space first character first |
| DependencyParsing.PipfileWithoutPackagesFails | dependency_analysis/utils.py:63 | a Pipfile without `[packages]` raises |
| DependencyParsing.SectionAfterMarker | dependency_analysis/utils.py:63 | after the first `[packages]`, the section is a prefix containing neither marker and ends at the next marker or the end |
| DependencyParsing.PipfileSectionBounds | dependency_analysis/utils.py:63 | the section exists exactly when `[packages]` occurs, starts right after its first occurrence, contains neither marker, and ends at the next marker or the end |
| VulnerabilityCheck.Query | dependency_analysis/utils.py:121-125 | definition, no contract: the OSV request payload of a dependency |
| VulnerabilityCheck.SeverityOf | dependency_analysis/utils.py:135-151 | definition, no contract: the severity a finding gets, or a raise |
| VulnerabilityCheck.RecordFinding | dependency_analysis/utils.py:135-153 | definition, no contract: the finding one advisory gives |
| VulnerabilityCheck.RecordsFindings | dependency_analysis/utils.py:134-153 | definition, no contract: the findings of all advisories of a reply |
| VulnerabilityCheck.DependencyOutcome | dependency_analysis/utils.py:129-160 | definition, no contract: one dependency's findings, or the early return |
| VulnerabilityCheck.CheckSpec | dependency_analysis/utils.py:111-162 | definition, no contract: the value `check_vulnerabilities` returns |
| VulnerabilityCheck.AppendFindings | dependency_analysis/utils.py:134-153 | the loop appends each advisory's finding in reply order, or raises where one does |
| VulnerabilityCheck.CheckVulnerabilities | dependency_analysis/utils.py:111-162 | the loop with its early returns yields exactly `CheckSpec`: all findings in order, None after a non-200 reply, the error page after an exception |
| VulnerabilityCheck.RecordsFindingsSnoc | dependency_analysis/utils.py:134 | one more advisory appends its own finding |
| VulnerabilityCheck.RecordFailure | dependency_analysis/utils.py:134-160 | one advisory that raises spoils the whole reply |
| VulnerabilityCheck.RecordFindingShape | dependency_analysis/utils.py:135-153 | a finding carries the dependency's name and version, the advisory's id and details or "N/A"/"No description provided", the remediation text, and "N/A" or the first entry's score as severity |
| VulnerabilityCheck.SeverityRaises | dependency_analysis/utils.py:142 | severity handling raises exactly on an empty list, a non-object first entry, or a value of another shape |
| VulnerabilityCheck.OneFindingPerRecord | dependency_analysis/utils.py:134-153 | a reply gives one finding per advisory in order, exactly when no advisory raises |
| VulnerabilityCheck.FoundIsConcatenation | dependency_analysis/utils.py:118-153 | a successful check is the concatenation, in dependency order, of every dependency's findings |
| VulnerabilityCheck.FindingsNameDependencies | dependency_analysis/utils.py:137-153 | every finding names a checked dependency and carries the constant remediation |
| VulnerabilityCheck.Then | dependency_analysis/utils.py:118-160 | definition, no contract: one run of checks followed by another, the findings of both or the first early return |
| VulnerabilityCheck.ThenAssociative | dependency_analysis/utils.py:118 | proof step: grouping runs of checks does not change the result |
| VulnerabilityCheck.CheckAppend | dependency_analysis/utils.py:118 | checking `a + b` is `Then` of checking `a` and checking `b`: `a`'s findings then `b`'s, and an early return in `a` ends it |
| VulnerabilityCheck.StopsAtFirstFailure | dependency_analysis/utils.py:154-160 | after an early return no later dependency matters |
| VulnerabilityCheck.AbortOnFailure | dependency_analysis/utils.py:154-156 | a non-200 reply returns None, discarding all findings |
| VulnerabilityCheck.EmptySeverityRaises | dependency_analysis/utils.py:142-160 | an advisory with an empty severity list yields the error page |
| VulnerabilityCheck.NothingToCheck | dependency_analysis/utils.py:116-162 | no dependencies give the empty list |
| DependencyViews.EcosystemName | dependency_analysis/views.py:16-20 | definition, no contract: the ecosystem string sent to the service |
| DependencyViews.Classify | dependency_analysis/views.py:14-20 | definition, no contract: the ecosystem the first file chooses, if any |
| DependencyViews.IsSupported | dependency_analysis/views.py:23 | definition, no contract: the supported file names |
| DependencyViews.Fits | dependency_analysis/views.py:26-30 | definition, no contract: the names that belong to an ecosystem |
| DependencyViews.Validate | dependency_analysis/views.py:8-30 | definition, no contract: the validation decision over the uploaded names |
| DependencyViews.UploadSpec | dependency_analysis/views.py:8-44 | definition, no contract: the outcome of the whole view |
| DependencyViews.FileVerdict | dependency_analysis/views.py:23-30 | a file's check never accepts: it passes or answers with an error or a raise |
| DependencyViews.FirstVerdict | dependency_analysis/views.py:22-30 | neither does the loop over the files |
| DependencyViews.Names | dependency_analysis/views.py:13 | the names of the uploaded files, in order |
| DependencyViews.ValidateUpload | dependency_analysis/views.py:8-30 | the branch assignments and the early-returning loop give exactly `Validate(names)` |
| DependencyViews.UploadDependencyView | dependency_analysis/views.py:8-44 | the view's outcome is `UploadSpec`: the error, the raise, or a report with the two counts |
| DependencyViews.FirstVerdictNone | dependency_analysis/views.py:22-30 | the loop passes exactly when every file passes |
| DependencyViews.FirstFailureDecides | dependency_analysis/views.py:22-30 | the first failing file decides the answer |
| DependencyViews.FirstFailing | dependency_analysis/views.py:22-30 | a failing batch has a first failing file, all before it passing |
| DependencyViews.AcceptedIff | dependency_analysis/views.py:14-30 | a batch is accepted as `e` exactly when the first name chooses `e` and every name fits `e` |
| DependencyViews.RaisedIff | dependency_analysis/views.py:14-26 | the view raises exactly when the first file is supported but chooses no ecosystem |
| DependencyViews.NoFileFirst | dependency_analysis/views.py:9-10 | no upload gives "No file selected" |
| DependencyViews.PackageJsonIsNpm | dependency_analysis/views.py:15-16 | example: package.json chooses npm |
| DependencyViews.RequirementsIsNotJson | dependency_analysis/views.py:23-26 | example: requirements.txt is a supported name that is not `.json` |
| DependencyViews.MixedUpload | dependency_analysis/views.py:26-27 | package.json with requirements.txt gives the mixed-types error |
| DependencyViews.LowercasePipfileRejected | dependency_analysis/views.py:23-24 | a lower-case pipfile is unsupported |
| DependencyViews.UnclassifiedJsonRaises | dependency_analysis/views.py:14-26 | a first file deps.json leaves `ecosystem` unbound, so the view raises |
| DependencyViews.ReportCounts | dependency_analysis/views.py:34-44 | a saved report exists only for an accepted upload whose check returned a list, and counts the dependencies and the findings |
| DependencyViews.ParseFailureEmptyReport | dependency_analysis/views.py:34-44 | an accepted upload with a file that fails to parse saves a report of 0 and 0 |
| DependencyViews.FailedQueryRaises | dependency_analysis/views.py:37-43 | a non-200 reply makes `len(vulns)` raise |
| Infrastructure.ValidPicks | infrastructure_monitor/utils.py:36-38 | definition, no contract: the random draws `scan_target` can make |
| Infrastructure.HasService | infrastructure_monitor/utils.py:41 | definition, no contract: a service among the picked ports |
| Infrastructure.ScanOf | infrastructure_monitor/utils.py:14-46 | definition, no contract: the scan `scan_target` returns for given draws |
| Infrastructure.RawScore | infrastructure_monitor/utils.py:52-60 | definition, no contract: the score before the clamp |
| Infrastructure.GradeOf | infrastructure_monitor/utils.py:64-68 | definition, no contract: the grade of a score |
| Infrastructure.PickedPorts | infrastructure_monitor/utils.py:37-39 | one common port per pick, in pick order |
| Infrastructure.ScanTarget | infrastructure_monitor/utils.py:14-46 | the method returns exactly `ScanOf(target, picks, coin)` |
| Infrastructure.RiskCount | infrastructure_monitor/utils.py:54 | there are no more risky ports than ports |
| Infrastructure.CalculateGrade | infrastructure_monitor/utils.py:48-70 | the score lies in [0, 100], is the raw score clamped at 0, and the grade is one of A, B, C, D, F |
| Infrastructure.GradeMonotone | infrastructure_monitor/utils.py:64-68 | a higher score never gets a worse grade |
| Infrastructure.GradeBands | infrastructure_monitor/utils.py:64-68 | E is never given; F exactly below 60 and A exactly from 90 |
| Infrastructure.RiskCountAppend | infrastructure_monitor/utils.py:54 | risky ports of two lists add up |
| Infrastructure.RiskCountSingle | infrastructure_monitor/utils.py:54 | a single port counts one exactly when it is risky |
| Infrastructure.RiskCountBetween | infrastructure_monitor/utils.py:54 | a port placed between two lists adds one exactly when it is risky |
| Infrastructure.RiskyInsertion | infrastructure_monitor/utils.py:54-57 | inserting a risky port anywhere adds one to the count |
| Infrastructure.RiskyPortNeverHelps | infrastructure_monitor/utils.py:57-68 | an extra risky port never raises the score or improves the grade |
| Infrastructure.ExpiredSslNeverHelps | infrastructure_monitor/utils.py:58-68 | an expired certificate never raises the score or improves the grade |
| Infrastructure.KnownTargetsDeterministic | infrastructure_monitor/utils.py:24-27 | a known target gets its canned ports whatever the draws, with an expired certificate exactly for bad-site.com |
| Infrastructure.UnknownTargetScan | infrastructure_monitor/utils.py:30-41 | an unknown target gets one to four common ports, and an expired certificate only with HTTPS among them |
| Infrastructure.RiskBelowLength | infrastructure_monitor/utils.py:41-54 | a list containing a non-risky HTTPS port has fewer risky ports than ports |
| Infrastructure.BadSitePorts | infrastructure_monitor/utils.py:6-10 | bad-site.com has two risky ports |
| Infrastructure.CommonHttpsSafe | infrastructure_monitor/utils.py:31-34 | the common HTTPS port is not risky |
| Infrastructure.ClampNeverNeeded | infrastructure_monitor/utils.py:24-61 | every scan scan_target can produce has a raw score of at least 10 |
| Infrastructure.BadSiteGrade | infrastructure_monitor/utils.py:6-70 | bad-site.com scores 30 with grade F |
| Infrastructure.CleanTargetsGrade | infrastructure_monitor/utils.py:5-70 | 8.8.8.8 and example.com score 100 with grade A |
| EndpointLogic.IsSafe | endpoint_monitor/logic.py:23-27 | definition, no contract: a hook is whitelisted |
| EndpointLogic.Suspicious | endpoint_monitor/logic.py:20-30 | definition, no contract: the unsafe hooks in input order |
| EndpointLogic.CheckHook | endpoint_monitor/logic.py:23-27 | the whitelist scan with its flag and `break` decides exactly `IsSafe(hook)` |
| EndpointLogic.AnalyzeHooks | endpoint_monitor/logic.py:9-32 | the result is the unsafe hooks in order, and the flag is set exactly when there are any |
| EndpointLogic.SuspiciousMembers | endpoint_monitor/logic.py:20-30 | a hook is reported exactly when it is in the input and not safe |
| EndpointLogic.SuspiciousIsSubsequence | endpoint_monitor/logic.py:20-30 | the report is a subsequence of the input |
| EndpointLogic.SubsequenceOfLonger | endpoint_monitor/logic.py:20-30 | a subsequence stays one when the input grows |
| EndpointLogic.SubsequenceDropLast | endpoint_monitor/logic.py:20-30 | dropping an element of a subsequence keeps it one |
| EndpointLogic.SuspiciousAppend | endpoint_monitor/logic.py:20-30 | the report of `a + b` is the report of `a` then that of `b` |
| EndpointLogic.NoHooksNoRisk | endpoint_monitor/logic.py:16-17 | example: no hooks give no report |
| EndpointLogic.CaseInsensitive | endpoint_monitor/logic.py:25 | hooks with the same lower-case form are judged alike |
| EndpointLogic.PathIsSafe | endpoint_monitor/logic.py:25 | a path ending in a whitelisted name, in any case, is safe |
| EndpointLogic.MissingChar | endpoint_monitor/logic.py:25 | a text lacking a character of the name does not contain it |
| EndpointLogic.LowerUnchanged | endpoint_monitor/logic.py:25 | proof step: text without capitals lower-cases to itself |
| EndpointLogic.ContainsItself | endpoint_monitor/logic.py:25 | proof step: every name contains itself |
| EndpointLogic.NotWhitelisted | endpoint_monitor/logic.py:4-25 | a whitelisted name with a character missing from malicious.dll does not match it |
| EndpointLogic.NotWhitelistedAt | endpoint_monitor/logic.py:4-25 | no whitelisted name occurs in malicious.dll |
| EndpointLogic.MaliciousNotSafe | endpoint_monitor/logic.py:4-27 | malicious.dll is not safe |
| EndpointLogic.UserIsSafe | endpoint_monitor/logic.py:5-25 | User32.dll is safe |
| EndpointLogic.MaliciousReported | endpoint_monitor/logic.py:9-32 | [User32.dll, malicious.dll] reports exactly malicious.dll |
| EndpointViews.IsOnline | endpoint_monitor/models.py:13-15 | definition, no contract: `Agent.is_online` |
| EndpointViews.NewAgent | endpoint_monitor/views.py:24 | definition, no contract: the record `get_or_create` inserts |
| EndpointViews.Reaches | endpoint_monitor/views.py:13-21 | definition, no contract: a request that gets as far as `get_or_create` |
| EndpointViews.HostnameOf | endpoint_monitor/views.py:17 | definition, no contract: the hostname a heartbeat sends |
| EndpointViews.HeartbeatOutcome | endpoint_monitor/views.py:12-65 | definition, no contract: the heartbeat's answer |
| EndpointViews.Touched | endpoint_monitor/views.py:27-51 | definition, no contract: the agent after its fields are set, before the save |
| EndpointViews.AfterHeartbeat | endpoint_monitor/views.py:24-58 | definition, no contract: the agent table after a heartbeat |
| EndpointViews.RowOf | endpoint_monitor/views.py:35-39 | definition, no contract: the heartbeat row recorded |
| EndpointViews.SweptAgent | endpoint_monitor/views.py:75-78 | definition, no contract: one agent after the sweep |
| EndpointViews.Swept | endpoint_monitor/views.py:70-78 | definition, no contract: the agent table after the sweep |
| EndpointViews.DisconnectedAgent | endpoint_monitor/views.py:86-88 | definition, no contract: the agent after a forced disconnect |
| EndpointViews.AgentTable.constructor | endpoint_monitor/models.py:5-24 | the tables start empty and satisfy the key invariant `Valid()`: each agent is stored under its own agent_id |
| EndpointViews.AgentTable.Heartbeat | endpoint_monitor/views.py:12-65 | the answer is `HeartbeatOutcome`; a request that reaches get_or_create leaves the agent table at `AfterHeartbeat` and appends one heartbeat row; any other leaves both tables unchanged; the key invariant `Valid()` is kept |
| EndpointViews.AgentTable.RecordHeartbeat | endpoint_monitor/views.py:24-58 | once the agent id is known: the answer flags risk exactly when a hook is suspicious, the agent table becomes `AfterHeartbeat`, one heartbeat row is appended, and `Valid()` is kept |
| EndpointViews.AgentTable.DashboardSweep | endpoint_monitor/views.py:70-78 | the agent table becomes `Swept(old agents, now)`; the heartbeats are unchanged; the key invariant `Valid()` is kept |
| EndpointViews.AgentTable.DisconnectAgent | endpoint_monitor/views.py:84-88 | a present agent is disconnected and the rest unchanged; a missing one gives 404 with nothing changed; the key invariant `Valid()` is kept |
| EndpointViews.HeartbeatAnswers | endpoint_monitor/views.py:13-65 | 405 exactly for a non-POST, 400 exactly for a body without a usable agent_id, 200 exactly otherwise, flagging risk exactly when a hook is suspicious |
| EndpointViews.HeartbeatStatus | endpoint_monitor/views.py:29-58 | a new or active agent ends active, online, with the sender's address, Risk exactly with suspicious hooks and Online exactly without |
| EndpointViews.HostnameRule | endpoint_monitor/views.py:17-28 | a new agent takes the sent hostname or "Unknown"; an existing one changes it only for a value other than "Unknown" |
| EndpointViews.HeartbeatIsLocal | endpoint_monitor/views.py:24-58 | a heartbeat adds at most its own agent and changes no other |
| EndpointViews.RowRecordsRisk | endpoint_monitor/views.py:35-39 | the row's risk score is the number of suspicious hooks, positive exactly when some hook is suspicious |
| EndpointViews.InactiveUntouchedByHeartbeat | endpoint_monitor/views.py:42-58 | a heartbeat never saves an inactive agent |
| EndpointViews.SweepChangesOnlyStale | endpoint_monitor/views.py:70-78 | an agent changes exactly when it is active, older than five minutes and not Risk, and then becomes Offline |
| EndpointViews.SweepIdempotent | endpoint_monitor/views.py:70-78 | a second sweep at the same moment changes nothing |
| EndpointViews.SweptAgentLooksOnline | endpoint_monitor/models.py:9-15 | an agent just marked Offline counts as online and is left alone for five minutes, because the save refreshes its last heartbeat |
| EndpointViews.DisconnectIsFinal | endpoint_monitor/views.py:57-88 | a disconnected agent is inactive and Disconnected, and no later heartbeat or sweep changes it |
| EndpointViews.NewAgentsStartActive | endpoint_monitor/models.py:10-11 | example: a created agent is active with status Offline |
| EndpointViews.OperationsKeepKeys | endpoint_monitor/models.py:6 | every operation keeps each agent stored under its own agent_id |

## Left out

- I/O and services are parameters rather than modelled:
  - `file.read().decode('utf-8')` is the optional text of an uploaded file;
  - `json.loads` and `response.json()` are a decoding function, or an already-decoded reply body;
  - the HTTP POST to the OSV URL is a function from payload to reply, and `os.getenv` is dropped;
  - `request.META['REMOTE_ADDR']` is a parameter;
  - `print` is dropped.
- JSON values are decoded only as far as the core reads them.
  - A version, advisory id, details or score that is not a string, an `agent_id` or hostname that is not a string, and hooks that are not strings are left out.
  - A `devDependencies` value that is a non-empty list is modelled as raising. Python's `dict.update` would accept a list of pairs.
  - A `vulns` member that is not a list is modelled as raising. An empty string or object there would give no findings.
- VersionRanges.VersionMatches: does not model the ways `int()` can raise inside `compare_versions`, which return False at lines 106-108. These are characters that pass `isdigit` but that `int` rejects, such as '²', and, on Python 3.11 and later, digit strings longer than 4300 digits. For `compare_versions("1", "<" + "1" * 4301)` the source returns False and the model True. The model reads only ASCII digits and no length limit, so this exception path is absent from it.
- Unicode behaviour is not modelled. `str.lower`, `isspace`, `isdigit` and `\d` are ASCII only, and `splitlines` breaks only at ASCII line boundaries.
- `random.randint` and `random.choice` in `scan_target` are parameters: the list of picks and the coin.
- `timezone.now()` is an integer number of minutes. `auto_now` is modelled by setting the last heartbeat to now on every save.
- The dashboard's rendering and its ordering by last heartbeat are not modelled. Neither are redirects, `login_required`, CSRF, the ORM's `filter`/`order_by`, or persisting the report's files and vulnerabilities (dependency_analysis/views.py:46-65).
- `EndpointViews.AgentTable.DisconnectAgent`: the URL parameter is read as the database primary key, `id=agent_id`. The model looks the agent up by its agent_id instead, because it has no separate key.
- `EndpointViews.AgentTable.Heartbeat`: the heartbeat row stores `json.dumps(hooks)`. The model stores the hook list itself.
- Exceptions after `get_or_create` in the heartbeat API are not modelled. The model therefore does not capture the agent row that such an exception would leave behind while answering 500.
- `MOCK_VULNDB` is no lookup source, because `check_vulnerabilities` never reads it. Its ranges appear only as examples for `compare_versions`.
- The report list and detail views, infrastructure_monitor/views.py and core/views.py are not part of this model. They render and save values whose computation is modelled here.
- verify_deployment.py is not part of this model. It calls `check_vulnerabilities` with one argument instead of three.

## Findings

| source | as written | input that shows it | evidently intended | confidence | as-written member | corrected member |
|---|---|---|---|---|---|---|
| dependency_analysis/utils.py:87 | the alternation `(<\|<=\|>\|>=\|==)` tries `<` before `<=` and `>` before `>=`, so a range starting with `<=` is read as `<` with bound `=X`; the unparseable first segment `=1` is dropped, and the `<=`/`>=` branches are unreachable | `compare_versions("1.0.0", "<=1.0.0")` compares [1, 0, 0] < [0, 0, 0] and returns False | `<=` and `>=` are read as such, as the docstring lists them, so 1.0.0 is inside "<=1.0.0" | not executed | VersionRanges.LessEqualReadAsLess | VersionRanges.IntendedLessEqual |
