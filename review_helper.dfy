/** The review helper script: it scans its arguments for a target path and an
    output format, collects ESLint's findings and the validator's violations
    for every file, and fails when there is a blocker. */
module ReviewHelper {
  import opened Js
  import opened Text
  import opened Findings
  import opened ShoptetRules

  /** `arg.startsWith('--format=')` */
  predicate IsFormatFlag(arg: string) {
    HasPrefix(arg, "--format=")
  }

  /** `arg.split('=')[1]` for a `--format=` argument: the text between its
      first and its second `=`. */
  function FlagValue(arg: string): (v: string)
    requires IsFormatFlag(arg)
    ensures v == arg[9..][..IndexOf(arg[9..], '=')]
    ensures '=' !in v
  {
    FlagSplit(arg);
    Split(arg, '=')[1]
  }

  lemma FlagSplit(arg: string)
    requires IsFormatFlag(arg)
    ensures |Split(arg, '=')| >= 2 && Split(arg, '=')[1] == arg[9..][..IndexOf(arg[9..], '=')]
  {
    assert arg[..9] == "--format=";
    assert arg[8] == '=';
    assert '=' !in arg[..8] by {
      assert forall j :: 0 <= j < 8 ==> arg[j] == "--format="[j];
    }
    assert IndexOf(arg, '=') == 8;
    SplitFirst(arg[9..], '=');
  }

  /** The format the argument scan ends with: the value of the last
      `--format=` argument, `console` when there is none. */
  function FormatOf(args: seq<string>): string {
    if args == [] then "console"
    else if IsFormatFlag(args[|args| - 1]) then FlagValue(args[|args| - 1])
    else FormatOf(args[..|args| - 1])
  }

  /** An argument that the scan keeps as the target path: not a flag, and
      not empty, since `!targetPath` holds for an empty path too. */
  predicate IsTarget(arg: string) {
    !IsFormatFlag(arg) && arg != ""
  }

  /** The target path the scan has found in `args`, if any. */
  function FirstTarget(args: seq<string>): Option<string> {
    if args == [] then None
    else if FirstTarget(args[..|args| - 1]).Some? then FirstTarget(args[..|args| - 1])
    else if IsTarget(args[|args| - 1]) then Some(args[|args| - 1])
    else None
  }

  /** The target path after the default: `src` when none was given. */
  function TargetOf(args: seq<string>): string {
    FirstTarget(args).GetOr("src")
  }

  /** The format is the value of the last `--format=` argument. */
  lemma {:induction false} FormatIsLastFlag(args: seq<string>, i: nat)
    requires i < |args| && IsFormatFlag(args[i])
    requires forall j :: i < j < |args| ==> !IsFormatFlag(args[j])
    ensures FormatOf(args) == FlagValue(args[i])
    decreases |args|
  {
    if i < |args| - 1 {
      var front := args[..|args| - 1];
      assert front[i] == args[i];
      assert forall j :: i < j < |front| ==> front[j] == args[j];
      FormatIsLastFlag(front, i);
    }
  }

  /** Without a `--format=` argument the format is `console`. */
  lemma {:induction false} FormatDefault(args: seq<string>)
    requires forall j :: 0 <= j < |args| ==> !IsFormatFlag(args[j])
    ensures FormatOf(args) == "console"
    decreases |args|
  {
    if args != [] {
      var front := args[..|args| - 1];
      assert forall j :: 0 <= j < |front| ==> front[j] == args[j];
      FormatDefault(front);
    }
  }

  /** The target path is the first argument that is neither a flag nor empty;
      later ones are ignored. */
  lemma {:induction false} TargetIsFirst(args: seq<string>, i: nat)
    requires i < |args| && IsTarget(args[i])
    requires forall j :: 0 <= j < i ==> !IsTarget(args[j])
    ensures FirstTarget(args) == Some(args[i]) && TargetOf(args) == args[i]
    decreases |args|
  {
    var front := args[..|args| - 1];
    if i < |args| - 1 {
      assert front[i] == args[i];
      assert forall j :: 0 <= j < i ==> front[j] == args[j];
      TargetIsFirst(front, i);
    } else {
      assert forall j :: 0 <= j < |front| ==> front[j] == args[j];
      NoTarget(front);
    }
  }

  /** Without such an argument the target path is `src`. */
  lemma {:induction false} NoTarget(args: seq<string>)
    requires forall j :: 0 <= j < |args| ==> !IsTarget(args[j])
    ensures FirstTarget(args) == None && TargetOf(args) == "src"
    decreases |args|
  {
    if args != [] {
      var front := args[..|args| - 1];
      assert forall j :: 0 <= j < |front| ==> front[j] == args[j];
      NoTarget(front);
    }
  }

  /** The argument scan: `targetPath` starts as `null` and `format` as
      `console`. */
  method ParseArgs(args: seq<string>) returns (targetPath: string, format: string)
    ensures targetPath == TargetOf(args) && format == FormatOf(args)
  {
    var target: Option<string> := None;
    format := "console";
    for i := 0 to |args|
      invariant format == FormatOf(args[..i])
      invariant (if target.Some? && target.value != "" then target else None) == FirstTarget(args[..i])
      invariant target.Some? ==> !IsFormatFlag(target.value)
    {
      assert args[..i + 1][..i] == args[..i];
      if IsFormatFlag(args[i]) {
        format := FlagValue(args[i]);
      } else if !(target.Some? && target.value != "") {
        target := Some(args[i]);
      }
    }
    assert args[..|args|] == args;
    targetPath := if target.Some? && target.value != "" then target.value else "src";
  }

  /** The finding for an ESLint message, fields copied as they are. */
  function FromLintMessage(filePath: string, m: LintMessage): (f: Finding)
    ensures f.severity == Blocker <==> m.severity == Num(2)
    ensures f.line == m.line && f.column == m.column && f.ruleId == m.ruleId
  {
    Finding(filePath, m.line, m.column, m.message, m.ruleId, SeverityOf(m.severity))
  }

  /** Reading a file: `fs.readFileSync` throws, or the text is read and the
      parser succeeds (`Some`) or fails (`None`). */
  datatype ReadOutcome = Unreadable | Read(parsed: Option<Value>)

  datatype SourceFile = SourceFile(path: string, contents: ReadOutcome)

  /** The finding for a validator violation: a blocker of rule
      `ast-validator`, its 0-based column moved to 1-based. */
  function FromViolation(file: string, v: Violation): (f: Finding)
    ensures f.severity == Blocker && f.ruleId == Some("ast-validator")
    ensures f.file == file && f.line == v.line && f.message == v.message
    ensures v.column.Num? ==> f.column == Num(v.column.n + 1)
  {
    Finding(file, v.line, AddOne(v.column), v.message, Some("ast-validator"), Blocker)
  }

  /** The findings of one file: one per violation, in order, when it is read
      and validated; none when reading or validating throws, as the `catch`
      only logs. */
  function FileFindings(file: SourceFile): (r: seq<Finding>)
    ensures file.contents.Read? && Validate(file.contents.parsed).Normal? ==>
      var violations := Validate(file.contents.parsed).value;
      |r| == |violations| &&
      forall i :: 0 <= i < |r| ==>
        r[i] == Finding(file.path, violations[i].line, AddOne(violations[i].column), violations[i].message, Some("ast-validator"), Blocker)
    ensures file.contents.Unreadable? || Validate(file.contents.parsed).Abrupt? ==> r == []
  {
    match file.contents
    case Unreadable => []
    case Read(parsed) =>
      match Validate(parsed)
      case Abrupt => []
      case Normal(violations) => ViolationFindings(file.path, violations)
  }

  function ViolationFindings(file: string, violations: seq<Violation>): (r: seq<Finding>)
    ensures |r| == |violations| && forall i :: 0 <= i < |r| ==> r[i] == FromViolation(file, violations[i])
  {
    seq(|violations|, i requires 0 <= i < |violations| => FromViolation(file, violations[i]))
  }

  /** The inner loop over one file's violations: each one is pushed as a
      finding and counted as a blocker. */
  method PushViolations(findings: seq<Finding>, blockerCount: nat, recommendCount: nat, file: string, violations: seq<Violation>)
    returns (findings': seq<Finding>, blockerCount': nat)
    requires blockerCount == Count(findings, Blocker) && recommendCount == Count(findings, Recommend)
    ensures findings' == findings + ViolationFindings(file, violations)
    ensures blockerCount' == Count(findings', Blocker) && blockerCount' == blockerCount + |violations|
    ensures recommendCount == Count(findings', Recommend)
  {
    findings', blockerCount' := findings, blockerCount;
    for j := 0 to |violations|
      invariant findings' == findings + ViolationFindings(file, violations)[..j]
      invariant blockerCount' == Count(findings', Blocker) && blockerCount' == blockerCount + j
      invariant recommendCount == Count(findings', Recommend)
    {
      var finding := FromViolation(file, violations[j]);
      CountPush(findings', finding, Blocker);
      CountPush(findings', finding, Recommend);
      assert ViolationFindings(file, violations)[..j + 1] == ViolationFindings(file, violations)[..j] + [finding];
      AppendAssoc(findings, ViolationFindings(file, violations)[..j], [finding]);
      findings' := findings' + [finding];
      blockerCount' := blockerCount' + 1;
    }
    assert ViolationFindings(file, violations)[..|violations|] == ViolationFindings(file, violations);
  }

  function ValidatorFindings(files: seq<SourceFile>): seq<Finding> {
    if files == [] then [] else ValidatorFindings(files[..|files| - 1]) + FileFindings(files[|files| - 1])
  }

  /** `allFindings` after both loops: ESLint's findings, then the
      validator's, file by file. */
  function AllFindings(results: seq<LintResult>, files: seq<SourceFile>): seq<Finding> {
    LintFindings(results, FromLintMessage) + ValidatorFindings(files)
  }

  /** Both collection loops, with the two counters. */
  method CollectFindings(results: seq<LintResult>, files: seq<SourceFile>)
    returns (findings: seq<Finding>, blockerCount: nat, recommendCount: nat)
    ensures findings == AllFindings(results, files)
    ensures blockerCount == Count(findings, Blocker) && recommendCount == Count(findings, Recommend)
  {
    findings, blockerCount, recommendCount := CollectLint(results, FromLintMessage);
    ghost var lint := findings;
    for i := 0 to |files|
      invariant findings == lint + ValidatorFindings(files[..i])
      invariant blockerCount == Count(findings, Blocker) && recommendCount == Count(findings, Recommend)
    {
      var file := files[i];
      ghost var before := findings;
      if file.contents.Read? {
        var violations := ValidateShoptetCache(file.contents.parsed);
        if violations.Normal? {
          findings, blockerCount := PushViolations(findings, blockerCount, recommendCount, file.path, violations.value);
        }
      }
      assert findings == before + FileFindings(file);
      assert files[..i + 1][..i] == files[..i];
      AppendAssoc(lint, ValidatorFindings(files[..i]), FileFindings(file));
    }
    assert files[..|files|] == files;
  }

  /** A blocker of rule `ast-validator` carrying one of the validator's
      three messages. */
  predicate IsValidatorFinding(f: Finding) {
    f.severity == Blocker && f.ruleId == Some("ast-validator") && IsValidatorMessage(f.message)
  }

  /** Every validator finding is a blocker of rule `ast-validator` carrying
      one of the validator's three messages. */
  lemma ValidatorFindingsAreBlockers(files: seq<SourceFile>)
    ensures forall f :: f in ValidatorFindings(files) ==> IsValidatorFinding(f)
    ensures Count(ValidatorFindings(files), Recommend) == 0
    ensures Count(ValidatorFindings(files), Blocker) == |ValidatorFindings(files)|
  {
    ValidatorFindingsShaped(files);
    AllBlockers(ValidatorFindings(files));
  }

  lemma {:induction false} ValidatorFindingsShaped(files: seq<SourceFile>)
    ensures forall f :: f in ValidatorFindings(files) ==> IsValidatorFinding(f)
    decreases |files|
  {
    if files != [] {
      ValidatorFindingsShaped(files[..|files| - 1]);
      FileFindingsShaped(files[|files| - 1]);
    }
  }

  lemma FileFindingsShaped(file: SourceFile)
    ensures forall f :: f in FileFindings(file) ==> IsValidatorFinding(f)
  {
    if file.contents.Read? && file.contents.parsed.Some? {
      ValidateViolations(file.contents.parsed.value);
    }
  }

  lemma {:induction false} AllBlockers(fs: seq<Finding>)
    requires forall f :: f in fs ==> f.severity == Blocker
    ensures Count(fs, Recommend) == 0 && Count(fs, Blocker) == |fs|
    decreases |fs|
  {
    if fs != [] {
      AllBlockers(fs[..|fs| - 1]);
    }
  }

  /** `recommendCount` counts ESLint's warnings only, and `blockerCount`
      ESLint's errors plus one per validator violation. */
  lemma CountsBySource(results: seq<LintResult>, files: seq<SourceFile>)
    ensures Count(AllFindings(results, files), Recommend) == Count(LintFindings(results, FromLintMessage), Recommend)
    ensures Count(AllFindings(results, files), Blocker) ==
      Count(LintFindings(results, FromLintMessage), Blocker) + |ValidatorFindings(files)|
  {
    ValidatorFindingsAreBlockers(files);
    CountAppend(LintFindings(results, FromLintMessage), ValidatorFindings(files), Recommend);
    CountAppend(LintFindings(results, FromLintMessage), ValidatorFindings(files), Blocker);
  }

  /** The translations table of `translateMessage`. */
  const Translations: map<string, string> := map[
    FetchMessage := "Missing /cache/ in XHR call to Shoptet server",
    JQueryMessage := "Missing /cache/ in jQuery AJAX call to Shoptet server",
    XhrMessage := "XMLHttpRequest detected - verify it uses /cache/ for Shoptet API calls"]

  /** `translations[message] || message`: the English text of each of the
      validator's messages, every other message unchanged. */
  function TranslateMessage(message: string): (r: string)
    ensures message == FetchMessage ==> r == "Missing /cache/ in XHR call to Shoptet server"
    ensures message == JQueryMessage ==> r == "Missing /cache/ in jQuery AJAX call to Shoptet server"
    ensures message == XhrMessage ==> r == "XMLHttpRequest detected - verify it uses /cache/ for Shoptet API calls"
    ensures !IsValidatorMessage(message) ==> r == message
  {
    if message in Translations then Translations[message] else message
  }

  /** `getRuleTitle(finding)` */
  function RuleTitle(f: Finding): (r: string)
    ensures f.ruleId == Some("ast-validator") ==>
      r == if Contains(f.message, "cache") then "ShoptetCacheRequired" else "ShoptetValidator"
    ensures f.ruleId != Some("ast-validator") && f.ruleId.Some? && f.ruleId.value != "" ==> r == f.ruleId.value
    ensures f.ruleId.None? || f.ruleId == Some("") ==> r == "CodeQuality"
  {
    if f.ruleId == Some("ast-validator") then
      if Contains(f.message, "cache") then "ShoptetCacheRequired" else "ShoptetValidator"
    else if f.ruleId.Some? && f.ruleId.value != "" then f.ruleId.value
    else "CodeQuality"
  }

  /** All three validator messages mention the cache. */
  lemma ValidatorMessagesMentionCache(m: string)
    requires IsValidatorMessage(m)
    ensures Contains(m, "cache")
  {
    ContainsMiddle("Chybí /", "cache", "/ v XHR volání na Shoptet server");
    ContainsMiddle("Chybí /", "cache", "/ v jQuery AJAX volání na Shoptet server");
    ContainsMiddle("XMLHttpRequest detekován - zkontrolovat, zda používá /", "cache", "/ pro Shoptet API");
  }

  /** Hence every validator finding is titled `ShoptetCacheRequired`, and the
      `ShoptetValidator` title is never produced. */
  lemma ValidatorFindingsTitled(files: seq<SourceFile>)
    ensures forall f :: f in ValidatorFindings(files) ==> RuleTitle(f) == "ShoptetCacheRequired"
  {
    ValidatorFindingsAreBlockers(files);
    forall f | f in ValidatorFindings(files)
      ensures RuleTitle(f) == "ShoptetCacheRequired"
    {
      ValidatorMessagesMentionCache(f.message);
    }
  }

  /** `finding.column || 1` */
  function AnnotationColumn(f: Finding): (col: Value)
    ensures Truthy(col)
    ensures !Truthy(f.column) ==> ToString(col) == "1"
    ensures Truthy(f.column) ==> col == f.column
  {
    Or(f.column, Num(1))
  }

  /** The annotation printed for a finding, given its path relative to the
      working directory: level `error` exactly for blockers, the column
      defaulted to 1, the rule title and the translated message. */
  function GitHubAnnotation(relativePath: string, f: Finding): (r: string)
    ensures HasPrefix(r, "::error ") <==> f.severity == Blocker
    ensures HasPrefix(r, "::warning ") <==> f.severity == Recommend
    ensures r == Annotation(f.severity, relativePath, ToString(f.line), ToString(AnnotationColumn(f)), RuleTitle(f),
                            TranslateMessage(f.message))
  {
    Annotation(f.severity, relativePath, ToString(f.line), ToString(AnnotationColumn(f)), RuleTitle(f),
               TranslateMessage(f.message))
  }

  const CleanSummary: string := NoticeTitle + ("CodeReview" + "::No issues found - code looks good!")

  /** A summary of counts is never the clean bill: the titles differ. */
  lemma SummaryIsNotClean(text: string)
    ensures SummaryPrefix + text != CleanSummary
  {
    assert (SummaryPrefix + text)[|NoticeTitle|] == 'R';
    assert CleanSummary[|NoticeTitle|] == 'C';
  }

  /** The closing notice: the clean bill exactly when there are no
      findings, otherwise the summary of the two counts. */
  function SummaryLine(findings: seq<Finding>): (r: string)
    ensures r == CleanSummary <==> findings == []
    ensures findings != [] ==> HasPrefix(r, SummaryPrefix + "Found ")
    ensures findings != [] ==> r == SummaryPrefix + CountText(Count(findings, Blocker), Count(findings, Recommend))
  {
    if findings == [] then CleanSummary
    else
      var r := SummaryPrefix + CountText(Count(findings, Blocker), Count(findings, Recommend));
      SummaryIsNotClean(CountText(Count(findings, Blocker), Count(findings, Recommend)));
      assert r[..|SummaryPrefix + "Found "|] == SummaryPrefix + "Found ";
      r
  }

  /** Reading the counters back off the summary: the line names exactly the
      numbers of blockers and of recommendations among the findings, and
      those add up to the number of findings. */
  lemma SummaryReportsCounts(findings: seq<Finding>, blockers: nat, recommends: nat)
    ensures SummaryLine(findings) == SummaryPrefix + CountText(blockers, recommends) <==>
            findings != [] && blockers == Count(findings, Blocker) && recommends == Count(findings, Recommend)
    ensures findings != [] ==> Count(findings, Blocker) + Count(findings, Recommend) == |findings|
  {
    CountTotal(findings);
    var text := CountText(blockers, recommends);
    SummaryIsNotClean(text);
    if findings != [] && SummaryLine(findings) == SummaryPrefix + text {
      var actual := CountText(Count(findings, Blocker), Count(findings, Recommend));
      assert SummaryPrefix + actual == SummaryPrefix + text;
      assert actual == (SummaryPrefix + actual)[|SummaryPrefix|..];
      assert text == (SummaryPrefix + text)[|SummaryPrefix|..];
      CountTextInjective(blockers, recommends, Count(findings, Blocker), Count(findings, Recommend));
    }
  }

  /** `outputGitHubActions(allFindings)`: one annotation per finding, then
      the summary. */
  method OutputGitHubActions(findings: seq<Finding>, relativePath: string -> string) returns (lines: seq<string>)
    ensures |lines| == |findings| + 1 && lines[|findings|] == SummaryLine(findings)
    ensures forall i :: 0 <= i < |findings| ==> lines[i] == GitHubAnnotation(relativePath(findings[i].file), findings[i])
    ensures findings != [] ==>
      lines[|findings|] == SummaryPrefix + CountText(Count(findings, Blocker), Count(findings, Recommend)) &&
      Count(findings, Blocker) + Count(findings, Recommend) == |findings|
  {
    lines := Render(findings, (f: Finding) => GitHubAnnotation(relativePath(f.file), f));
    lines := lines + [SummaryLine(findings)];
    CountTotal(findings);
  }

  /** The script's run after the files are found and linted: the argument
      scan, the collection, the annotations and the summary for the
      `github-actions` format (the console report is not modelled), and the
      exit code, 1 exactly when some finding, of ESLint or of the validator,
      is a blocker. */
  method Review(args: seq<string>, results: seq<LintResult>, files: seq<SourceFile>, relativePath: string -> string)
    returns (targetPath: string, format: string, findings: seq<Finding>, lines: seq<string>, exitCode: int)
    ensures targetPath == TargetOf(args) && format == FormatOf(args)
    ensures findings == AllFindings(results, files)
    ensures format == "github-actions" ==>
      |lines| == |findings| + 1 && lines[|findings|] == SummaryLine(findings) &&
      forall i :: 0 <= i < |findings| ==> lines[i] == GitHubAnnotation(relativePath(findings[i].file), findings[i])
    ensures format != "github-actions" ==> lines == []
    ensures exitCode == 1 <==> exists i :: 0 <= i < |findings| && findings[i].severity == Blocker
    ensures exitCode == 0 <==> forall i :: 0 <= i < |findings| ==> findings[i].severity == Recommend
    ensures Count(findings, Blocker) + Count(findings, Recommend) == |findings|
  {
    targetPath, format := ParseArgs(args);
    var blockerCount, recommendCount;
    findings, blockerCount, recommendCount := CollectFindings(results, files);
    lines := [];
    if format == "github-actions" {
      lines := OutputGitHubActions(findings, relativePath);
    }
    ExitCodeIffBlocker(findings);
    CountTotal(findings);
    exitCode := ExitCode(blockerCount);
  }
}
