# Shoptet cache detector, modelled in Dafny

This project models the part of the Shoptet add-on review tool that finds
calls to Shoptet servers which skip `/cache/`. It also models the pure finding
logic of the tool's two command-line scripts. There are two copies of the
detector, and the model keeps both as written:

- **The standalone syntax-tree validator** (`validateShoptetCache`). It walks
  the parsed program with a generic pre-order walker (`traverse`). Its two
  visitors push a violation for:
  - a `fetch(...)` or `$.post/get/ajax(...)` call whose first argument is a
    string literal naming `.shoptet.cz` or `.myshoptet.com` without `/cache/`;
  - every `new XMLHttpRequest(...)`.
- **The ESLint rule `shoptet/require-cache`.** It also accepts template
  literals without interpolation and reports on the argument, not on the call.
  Its `context.report` appends to a report list.
- **The review helper script.** It scans its arguments for a target path and
  `--format=`, and turns ESLint messages and validator violations into counted
  findings. For the `github-actions` format it prints one annotation per
  finding and a summary. It exits with 1 exactly when there is a blocker.
- **The standalone review script.** It normalises ESLint messages with
  defaults, titles the project's own rules with capitalised parts, flattens
  line breaks in messages, and prints annotations and a summary.

## Modules

- `Js` (js.dfy) holds JavaScript values:
  - objects as ordered own properties, integers, strings, arrays;
  - truthiness, `||`, `+ 1` and `String(v)`;
  - property reads that throw a TypeError on `null`/`undefined`, written as a
    `Completion` (a value, or `Abrupt`).
- `Text` (text.dfy) holds `startsWith`, `includes`, `split` on one character,
  `join` and `toUpperCase`.
- `Patterns` (patterns.dfy) holds the two unanchored regular expressions as
  substring tests.
- `Nodes` (nodes.dfy) holds the node reads the two detectors share.
- `Traversal` (traverse.dfy) has two parts:
  - the specification: `Visits`, the pre-order list of (node, parent) pairs,
    and `Run`, the visitors' output over such a list;
  - the class `Walker`, whose recursive `Traverse` method, with its
    `for ... in` loop and `forEach`, is proved to run exactly that list.
- `ShoptetRules` (shoptet_rules.dfy) holds the validator's visitors and
  `validateShoptetCache`.
- `RequireCache` (require_cache.dfy) holds the ESLint rule.
  - Its handlers are functions giving the reports, or the throw.
  - The class `RuleContext` holds the methods that append to `reports`.
- `Findings` (findings.dfy) holds what both scripts share: findings,
  severities, the counting loops, the exit code and annotations.
- `ReviewHelper` (review_helper.dfy) holds the helper script, and `Review`
  (review.dfy) holds the standalone script.

The parser's outcome, ESLint's results, the result of reading each file and
`path.relative` are parameters. Printing becomes returned lines, and the exit
code is returned.

The argument scan of the helper keeps the first argument that is neither a
`--format=` flag nor empty. The scan tests `!targetPath`, so an empty argument
leaves the target unset and a later argument replaces it.

## Model

| member | source | states |
|---|---|---|
| Text.Split | review_tool/scripts/review-helper.js:18 | `split` on one character: at least one part; at least two when the separator occurs; no part contains it |
| Text.JoinSplit | review_tool/review.js:98-100 | joining the parts of a split with the same character gives back the string |
| Patterns.MissesCacheIff | review_tool/validators/shoptet-rules.js:39-40 | a URL misses the cache exactly when a Shoptet host suffix occurs somewhere in it and `/cache/` occurs nowhere |
| Patterns.NoDotNoDomain | review_tool/validators/shoptet-rules.js:39 | a URL without a dot never names a Shoptet domain and never misses the cache, so a relative path is never flagged: both domain alternatives start with a dot |
| Nodes.HasArguments | review_tool/validators/shoptet-rules.js:45 | throws exactly on a node or argument list that is null or undefined; on an array, whether it is non-empty |
| Nodes.FirstArgument | review_tool/validators/shoptet-rules.js:46 | the first element of a non-empty argument array |
| Nodes.StartOf | review_tool/validators/shoptet-rules.js:51-52 | throws exactly when the node, `loc` or `loc.start` is nullish; otherwise the start line and column |
| Traversal.Visits | review_tool/validators/shoptet-rules.js:15-32 | object and array values are visited, nothing else is; the first visit is the root with the parent it was given |
| Traversal.Held | review_tool/validators/shoptet-rules.js:23-30 | every value the walker descends into is smaller than the node, so the walk ends |
| Traversal.VisitsInEntryOrder | review_tool/validators/shoptet-rules.js:23 | the visits under a node's first k properties all come before the visits under the rest |
| Traversal.HeldIgnoresSkipped | review_tool/validators/shoptet-rules.js:24 | changing what a `loc`, `start` or `end` field holds changes nothing the walker descends into |
| Traversal.VisitAllParents | review_tool/validators/shoptet-rules.js:27-29 | each visit's parent is the owner holding it directly, or a node visited earlier that holds it |
| Traversal.ParentsVisitedFirst | review_tool/validators/shoptet-rules.js:15-31 | pre-order: the root comes first with its given parent; every later node has as parent a node that holds it and was visited before it |
| Traversal.Dispatch | review_tool/validators/shoptet-rules.js:18-21 | a node whose type has no visitor pushes nothing and cannot throw |
| Traversal.Run | review_tool/validators/shoptet-rules.js:15-32 | no visits push nothing; a run that does not throw gives exactly what the visits push, in visit order |
| Traversal.RunIsConcatenation | review_tool/validators/shoptet-rules.js:19-21 | the visitors' output is what each visit pushes, concatenated in visit order; the walk throws exactly when some visitor throws |
| Traversal.Walker.constructor | review_tool/validators/shoptet-rules.js:35 | a walk starts with nothing pushed |
| Traversal.Walker.Traverse | review_tool/validators/shoptet-rules.js:15-32 | a visitor throws exactly when the specified run over `Visits(node, parent)` throws; otherwise `pushed` grows by that run's output |
| Traversal.Walker.TraverseChildren | review_tool/validators/shoptet-rules.js:23-31 | the property loop: a throw exactly when the run over all held values throws; otherwise `pushed` grows by its output |
| Traversal.Walker.TraverseKey | review_tool/validators/shoptet-rules.js:24-30 | one pass of the loop: a throw is a throw of the whole walk; otherwise the walk so far grows by one property |
| Traversal.Walker.TraverseEntry | review_tool/validators/shoptet-rules.js:24-30 | one property: throws exactly when the run over what it holds throws, otherwise pushes that run's output; a skipped key or a primitive holds nothing, an array its elements, an object itself |
| Traversal.Walker.TraverseEach | review_tool/validators/shoptet-rules.js:27 | `forEach`: throws exactly when the run over the elements, in index order, throws; otherwise pushes that run's output |
| ShoptetRules.LiteralMissesCache | review_tool/validators/shoptet-rules.js:47-49 | throws exactly for a nullish argument; otherwise true exactly for a `StringLiteral`/`Literal` with a string value that misses the cache |
| ShoptetRules.Flagged | review_tool/validators/shoptet-rules.js:45-49 | true exactly when there is a first argument and it is a flagged literal |
| ShoptetRules.ReportAt | review_tool/validators/shoptet-rules.js:50-54 | one violation at the node's start line and column; throws exactly when the start cannot be read |
| ShoptetRules.WhenFlagged | review_tool/validators/shoptet-rules.js:45-55 | at most one violation, only for a flagged call, at the call's start; exactly one when flagged and the start is readable |
| ShoptetRules.FetchViolations | review_tool/validators/shoptet-rules.js:44-58 | the `fetch` branch: none for other callees; one with the XHR message for a flagged `fetch` |
| ShoptetRules.JQueryViolations | review_tool/validators/shoptet-rules.js:60-76 | the jQuery branch: none unless `$.post/get/ajax`; one with the jQuery message for a flagged call |
| ShoptetRules.CallExpressionHandler | review_tool/validators/shoptet-rules.js:43-77 | at most one violation per call, at the call's start, with the message of its style; exactly one for a flagged `fetch` or `$.post/get/ajax` call |
| ShoptetRules.NewExpressionHandler | review_tool/validators/shoptet-rules.js:79-87 | exactly one violation at the node's start for `new XMLHttpRequest`, whatever its arguments; none for other constructors |
| ShoptetRules.Validate | review_tool/validators/shoptet-rules.js:36-37 | a failed parse gives no violations |
| ShoptetRules.ValidateShoptetCache | review_tool/validators/shoptet-rules.js:34-91 | the walker with the two visitors returns exactly the specified run over the program's visits |
| ShoptetRules.NoArgumentsNoViolation | review_tool/validators/shoptet-rules.js:45 | a call without arguments gives no violation |
| ShoptetRules.OtherArgumentKindsNoViolation | review_tool/validators/shoptet-rules.js:47 | a first argument that is not a string literal gives no violation |
| ShoptetRules.DispatchViolations | review_tool/validators/shoptet-rules.js:19-21 | a visit pushes nothing unless its type is `CallExpression` or `NewExpression`, at most one violation, with one of the three messages |
| ShoptetRules.RunViolations | review_tool/validators/shoptet-rules.js:35-88 | over any visits: at most one violation per handled visit, each with one of the three messages |
| ShoptetRules.ValidateViolations | review_tool/validators/shoptet-rules.js:34-91 | over a program: at most one violation per call or new-expression node, each with one of the three messages |
| ShoptetRules.ValidateInTraversalOrder | review_tool/validators/shoptet-rules.js:90 | the violations are the visitors' pushes in traversal order, nothing dropped or merged; a throw exactly when a visitor throws |
| RequireCache.Message | review_tool/rules/shoptet-require-cache.js:16-19 | both message texts mention `/cache/` |
| RequireCache.TemplateText | review_tool/rules/shoptet-require-cache.js:38-41 | throws when `quasis` is null or undefined (reading its `length`), or when the first quasi or its `value` is; otherwise `null` unless `quasis.length` is 1, and the first quasi's cooked text when it is |
| RequireCache.IsViolatingUrl | review_tool/rules/shoptet-require-cache.js:30-48 | only a truthy `Literal` or `TemplateLiteral` can be violating, and only a template can throw; the full case split is `IsViolatingUrlCases` |
| RequireCache.IsViolatingUrlCases | review_tool/rules/shoptet-require-cache.js:30-48 | false for a falsy node and other node types; for a literal, whether its value is a violating string; for a template, a throw when `quasis` is null or undefined or its first quasi or that quasi's `value` is, false when `quasis.length` is not 1, otherwise whether the cooked text is violating |
| RequireCache.TemplateWithoutQuasisThrows | review_tool/rules/shoptet-require-cache.js:38 | a template literal without `quasis` makes `isViolatingUrl` throw |
| RequireCache.FetchOfTemplateWithoutQuasisThrows | review_tool/rules/shoptet-require-cache.js:67-71 | so the handler throws on `fetch` with such a template as first argument |
| RequireCache.CachedNeverViolates | review_tool/rules/shoptet-require-cache.js:43-47 | a violating URL, literal or template, never contains `/cache/` |
| RequireCache.GetMethodName | review_tool/rules/shoptet-require-cache.js:53-61 | the callee's name for an identifier; `$.` and the property name for a member callee with a property; `AJAX` otherwise; throws exactly without a callee |
| RequireCache.FetchCondition | review_tool/rules/shoptet-require-cache.js:67-71 | true exactly for a `fetch` callee with arguments |
| RequireCache.JQueryCondition | review_tool/rules/shoptet-require-cache.js:85-90 | true exactly for a `$.post/get/ajax` callee with arguments; false for non-member callees |
| RequireCache.BranchReports | review_tool/rules/shoptet-require-cache.js:72-81 | one `missingCache` report on the first argument exactly when it is violating; none when it is not |
| RequireCache.FetchReports | review_tool/rules/shoptet-require-cache.js:67-82 | the first `if`: at most one report; a report, on the first argument with method `fetch`, exactly for a `fetch` call with arguments whose first argument is violating; none for other callees |
| RequireCache.JQueryReports | review_tool/rules/shoptet-require-cache.js:85-101 | the second `if`: at most one report; a report, on the first argument with method `$.` and the method name, exactly for a `$.post/get/ajax` call with arguments whose first argument is violating; none for non-member callees |
| RequireCache.CallReports | review_tool/rules/shoptet-require-cache.js:65-102 | at most one report per call, on the violating first argument, named `fetch` or `$.` and the method |
| RequireCache.JQueryMethodName | review_tool/rules/shoptet-require-cache.js:97 | on a jQuery call, the method name is `$.` followed by the property name |
| RequireCache.FetchExcludesJQuery | review_tool/rules/shoptet-require-cache.js:86 | once the `fetch` branch reports, the jQuery branch reports nothing and cannot throw |
| RequireCache.NewReports | review_tool/rules/shoptet-require-cache.js:105-115 | one `verifyXHR` report on the new-expression itself for `new XMLHttpRequest`, none otherwise; throws exactly without a callee |
| RequireCache.FetchReported | review_tool/rules/shoptet-require-cache.js:67-82 | `fetch` with a violating first argument: exactly one report on it, method `fetch` |
| RequireCache.JQueryReported | review_tool/rules/shoptet-require-cache.js:85-101 | `$.post/get/ajax` with a violating first argument: exactly one report on it, method `$.<name>` |
| RequireCache.OtherMembersNotReported | review_tool/rules/shoptet-require-cache.js:86-88 | other objects and other method names give no report |
| RequireCache.RuleContext.constructor | review_tool/rules/shoptet-require-cache.js:23 | a file starts with no reports |
| RequireCache.RuleContext.Report | review_tool/rules/shoptet-require-cache.js:74-80 | `context.report` appends one report |
| RequireCache.RuleContext.CallExpression | review_tool/rules/shoptet-require-cache.js:65-102 | throws exactly when `CallReports` does; otherwise appends exactly its reports |
| RequireCache.RuleContext.CheckFetch | review_tool/rules/shoptet-require-cache.js:67-82 | the first `if`, appending its report |
| RequireCache.RuleContext.CheckJQuery | review_tool/rules/shoptet-require-cache.js:85-101 | the second `if`, appending its report |
| RequireCache.RuleContext.NewExpression | review_tool/rules/shoptet-require-cache.js:105-115 | throws exactly when `NewReports` does; otherwise appends exactly its reports |
| Findings.SeverityOf | review_tool/scripts/review-helper.js:75 | `blocker` exactly for severity 2 |
| Findings.Count | review_tool/scripts/review-helper.js:109-110 | the number of findings of a severity, never more than the number of findings |
| Findings.ExitCode | review_tool/scripts/review-helper.js:125 | the exit code is 0 or 1, and 1 exactly when the blocker count is positive |
| Findings.CountAppend | review_tool/scripts/review-helper.js:109-110 | the count of a severity over two lists is the sum of the counts |
| Findings.CountTotal | review_tool/review.js:76-83 | the blocker and recommendation counts add up to the number of findings |
| Findings.CountPositive | review_tool/scripts/review-helper.js:109 | the count of a severity is positive exactly when some finding has it |
| Findings.ExitCodeIffBlocker | review_tool/scripts/review-helper.js:125 | the exit code is 1 exactly when some finding is a blocker, and 0 exactly when all are recommendations |
| Findings.Level | review_tool/scripts/review-helper.js:150 | `error` exactly for blockers, `warning` exactly for recommendations |
| Findings.Annotation | review_tool/scripts/review-helper.js:155 | the workflow command starts `::error ` exactly for blockers and `::warning ` exactly for recommendations |
| Findings.CountText | review_tool/scripts/review-helper.js:165 | the summary text of two counters starts with `Found ` |
| Findings.CountTextInjective | review_tool/review.js:123-125 | the summary text determines both counters: two texts are equal only when the blocker counts and the recommendation counts agree |
| Findings.ResultFindings | review_tool/scripts/review-helper.js:68-77 | one finding per message of a result, in message order |
| Findings.CollectLint | review_tool/scripts/review-helper.js:67-86 | the findings are those of all results in order; the counters equal the numbers of blockers and recommendations |
| Findings.CollectResult | review_tool/scripts/review-helper.js:68-85 | the inner loop appends one result's findings and keeps the counters exact |
| Findings.Render | review_tool/scripts/review-helper.js:148-156 | one printed line per finding, in order |
| ReviewHelper.FlagValue | review_tool/scripts/review-helper.js:18 | the value of `--format=` is the text after the flag up to the next `=`, and contains no `=` |
| ReviewHelper.FormatIsLastFlag | review_tool/scripts/review-helper.js:16-18 | the format is the value of the last `--format=` argument |
| ReviewHelper.FormatDefault | review_tool/scripts/review-helper.js:14 | without a `--format=` argument the format is `console` |
| ReviewHelper.TargetIsFirst | review_tool/scripts/review-helper.js:19-21 | the target path is the first argument that is neither a flag nor empty; later ones are ignored |
| ReviewHelper.NoTarget | review_tool/scripts/review-helper.js:25-27 | without such an argument the target path is `src` |
| ReviewHelper.ParseArgs | review_tool/scripts/review-helper.js:13-27 | the scan loop ends with exactly the specified target path and format |
| ReviewHelper.FromLintMessage | review_tool/scripts/review-helper.js:69-76 | line, column and rule copied unchanged; `blocker` exactly for severity 2 |
| Js.AddOne | review_tool/scripts/review-helper.js:97 | `+ 1`: a number grows by one, so a 0-based column becomes a truthy 1-based one; `undefined` gives `NaN`; a string gets `1` appended |
| ReviewHelper.FromViolation | review_tool/scripts/review-helper.js:94-101 | a blocker of rule `ast-validator` with the violation's line and message and a numeric column moved up by one |
| ReviewHelper.FileFindings | review_tool/scripts/review-helper.js:88-107 | a validated file gives one blocker of rule `ast-validator` per violation, in order, with the column plus one; an unreadable file or a validator throw gives none |
| ReviewHelper.ViolationFindings | review_tool/scripts/review-helper.js:93-101 | one finding per violation, in order |
| ReviewHelper.PushViolations | review_tool/scripts/review-helper.js:93-103 | the violation loop appends those findings, adds one blocker per violation and leaves the recommendations unchanged |
| ReviewHelper.CollectFindings | review_tool/scripts/review-helper.js:67-107 | ESLint's findings then the validator's, file by file; the counters equal the numbers of blockers and recommendations |
| ReviewHelper.ValidatorFindingsAreBlockers | review_tool/scripts/review-helper.js:94-102 | every validator finding is a blocker of rule `ast-validator` with one of the validator's three messages |
| ReviewHelper.CountsBySource | review_tool/scripts/review-helper.js:80-84 | recommendations come from ESLint only; blockers are ESLint's errors plus one per violation |
| ReviewHelper.TranslateMessage | review_tool/scripts/review-helper.js:128-135 | each of the three messages maps to its English text; every other message is unchanged |
| ReviewHelper.RuleTitle | review_tool/scripts/review-helper.js:137-145 | `ast-validator` gives `ShoptetCacheRequired` or `ShoptetValidator` by whether the message mentions the cache; another rule is kept; a missing or empty rule gives `CodeQuality` |
| ReviewHelper.ValidatorMessagesMentionCache | review_tool/scripts/review-helper.js:139 | each of the validator's three messages contains `cache` |
| ReviewHelper.ValidatorFindingsTitled | review_tool/scripts/review-helper.js:138-141 | every validator finding is titled `ShoptetCacheRequired` |
| ReviewHelper.AnnotationColumn | review_tool/scripts/review-helper.js:153 | a falsy column prints as 1; a truthy one is kept |
| ReviewHelper.GitHubAnnotation | review_tool/scripts/review-helper.js:149-155 | level `error` exactly for blockers, with the defaulted column, the rule title and the translated message |
| ReviewHelper.SummaryIsNotClean | review_tool/scripts/review-helper.js:162-166 | a summary of counts never equals the clean notice, as their titles differ |
| ReviewHelper.SummaryLine | review_tool/scripts/review-helper.js:159-166 | the clean notice exactly when there are no findings; otherwise a `ReviewSummary` notice starting `Found ` |
| ReviewHelper.SummaryReportsCounts | review_tool/scripts/review-helper.js:159-166 | the counters read back off the summary are exactly the numbers of blockers and of recommendations among the findings, they exist only when there are findings, and they add up to the number of findings |
| ReviewHelper.OutputGitHubActions | review_tool/scripts/review-helper.js:147-167 | one annotation per finding, in order, then the summary, which names the two counts; the counts add up to the number of findings |
| ReviewHelper.Review | review_tool/scripts/review-helper.js:13-125 | the parsed arguments, all findings, annotations only for `github-actions`, exit code 1 exactly when a finding is a blocker, and counts that add up to the number of findings |
| Review.TargetArg | review_tool/review.js:8 | the first argument when it is non-empty, `src` otherwise; never empty |
| Review.FromLintMessage | review_tool/review.js:67-74 | falsy line and column become 1, truthy ones are kept; a missing or empty rule becomes `CodeQuality`; `blocker` exactly for severity 2 |
| Review.LintFindingsHaveDefaults | review_tool/review.js:69-72 | every collected finding has a truthy position and a non-empty rule |
| Review.CollectFindings | review_tool/review.js:65-84 | the counters equal the numbers of blockers and recommendations and add up to the number of findings |
| Review.CapitalizeParts | review_tool/review.js:99 | each part has its first character upper-cased |
| Review.CapitalizedIsUpperAfterSlash | review_tool/review.js:98-100 | split, capitalise each part and join is the same as upper-casing the first character and each character after a `/` |
| Review.RuleTitle | review_tool/review.js:93-104 | `CodeQuality` for a missing or empty rule; a rule not starting with `shoptet/` is unchanged; a `shoptet/` rule has each part capitalised |
| Review.ShoptetTitleShape | review_tool/review.js:97-100 | a `shoptet/` title keeps the length and the slash positions, starts `Shoptet/`, and differs only by upper-cased characters |
| Review.RequireCacheTitle | review_tool/review.js:98-100 | `shoptet/require-cache` is titled `Shoptet/Require-cache` |
| Review.Flatten | review_tool/review.js:112 | no `\n` remains; a message without `\n` is unchanged; the message never grows |
| Review.FlattenConcat | review_tool/review.js:112 | the message is flattened piece by piece, except where a `\r` ending one piece meets a `\n` starting the next |
| Review.FlattenLineFeed | review_tool/review.js:112 | a `\n` not preceded by `\r` becomes exactly one space, and the text on both sides is kept as flattened |
| Review.FlattenCrLf | review_tool/review.js:112 | a `\r\n` becomes exactly one space, and the text on both sides is kept as flattened |
| Review.FlattenIdempotent | review_tool/review.js:112 | flattening twice is flattening once |
| Review.AnnotationOf | review_tool/review.js:108-116 | level `error` exactly for blockers, with the rule title and the flattened message |
| Review.SummaryIsNotClean | review_tool/review.js:120-126 | a summary of counts never equals the clean notice, as their titles differ |
| Review.SummaryLine | review_tool/review.js:120-126 | the clean notice, with a check mark, exactly when there are no findings; otherwise a `ReviewSummary` notice starting `Found ` |
| Review.SummaryReportsCounters | review_tool/review.js:120-126 | the counters read back off the summary are exactly the two counters passed in, and only when there are findings |
| Review.Review | review_tool/review.js:60-90 | the findings, one annotation per finding, then a summary that is clean exactly when there are no findings and otherwise names `Count` of blockers and of recommendations; these add up to the number of findings; exit code 1 exactly when a finding is a blocker |

## Left out

- The Babel parser and the ESLint engine are not modelled. The parse result (`Option` of a tree, `None` for a parse error) and ESLint's results are inputs.
- ESLint's own text substitution for `meta.messages` is written out in `RequireCache.Message`. Its reporting machinery beyond appending a report is not modelled.
- File discovery, reading files, `path.resolve` and `path.relative`, and `console` output are not modelled.
  - This covers `fs.statSync` and `glob`, and the early exits when a path is missing or no `.js` file is found.
  - What reading a file gives is an input per file (`Unreadable` or the parse outcome).
  - `path.relative(process.cwd(), file)` is a function parameter.
  - Printed lines are returned, and the exit code is returned instead of passed to `process.exit`.
- The helper's `console` format is not modelled: `outputConsole`, `generateCopilotContext` (a timestamp and file writes) and the "Review complete" line. For that format the model prints nothing.
- The `main().catch` handlers and the helper's ESLint `catch` are not modelled. They turn an unexpected failure into a message and exit code 1.
- The review script's ESLint failure exit is not modelled either.
- `review_tool/eslint-config/shoptet-addon.js` is configuration handed to ESLint, so the model has no counterpart for it.
- JavaScript numbers are integers in the model. Positions, lengths and severities are integers. `NaN` comes only from `undefined + 1`.
- `> 0` on a string, array or object operand is taken to be false, because JavaScript's number conversion is not modelled.
- Property reads see own properties only, plus `length` on strings and arrays.
  - A node type naming an `Object.prototype` member (such as `constructor`) is treated as having no visitor.
  - JavaScript would call that inherited function.
- An object value may list the same key twice, which no JavaScript object can. A property read then sees the first copy, while the walker visits both. Values coming from a parser have distinct keys, so the model does not exclude repeated keys.
- `for ... in` enumerates an object's properties in their stored order and an array's indices in order. JavaScript's rule of putting integer-like keys first is not modelled.
- The tree is finite and acyclic, as in a parse tree. A cyclic object graph, on which `traverse` would not end, cannot be written.
- Text.Upper: upper-cases the ASCII letters only, whereas `toUpperCase` also maps other letters (such as `č`) and can lengthen a string (`ß` becomes `SS`).
- Review.RuleTitle: inherits that limit, so its capitalised parts agree with JavaScript only for ASCII first letters.
- Review.TargetArg: models `process.argv[2] || 'src'` only. The following `path.resolve` is not modelled.
