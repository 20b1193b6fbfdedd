/** What the two command-line tools collect from ESLint and from the validator:
    findings with a severity, the counters kept beside them, and the exit code
    derived from the counters. */
module Findings {
  import opened Js
  import opened Text

  datatype Severity = Blocker | Recommend

  /** ESLint's message object: position (either may be absent), text, rule
      (`null` for a parse error) and severity (1 warning, 2 error). */
  datatype LintMessage = LintMessage(line: Value, column: Value, message: string, ruleId: Option<string>, severity: Value)

  /** ESLint's result for one file. */
  datatype LintResult = LintResult(filePath: string, messages: seq<LintMessage>)

  /** A finding as both tools build it. */
  datatype Finding = Finding(file: string, line: Value, column: Value, message: string, ruleId: Option<string>, severity: Severity)

  /** `message.severity === 2 ? 'blocker' : 'recommend'` */
  function SeverityOf(severity: Value): (s: Severity)
    ensures s == Blocker <==> severity == Num(2)
  {
    if severity == Num(2) then Blocker else Recommend
  }

  /** `findings.filter(f => f.severity === s).length` */
  function Count(findings: seq<Finding>, s: Severity): (n: nat)
    ensures n <= |findings|
  {
    if findings == [] then 0
    else Count(findings[..|findings| - 1], s) + (if findings[|findings| - 1].severity == s then 1 else 0)
  }

  lemma CountPush(findings: seq<Finding>, f: Finding, s: Severity)
    ensures Count(findings + [f], s) == Count(findings, s) + (if f.severity == s then 1 else 0)
  {
    assert (findings + [f])[..|findings|] == findings;
  }

  lemma {:induction false} CountAppend(a: seq<Finding>, b: seq<Finding>, s: Severity)
    ensures Count(a + b, s) == Count(a, s) + Count(b, s)
    decreases |b|
  {
    if b == [] {
      assert a + b == a;
    } else {
      assert (a + b)[..|a + b| - 1] == a + b[..|b| - 1];
      CountAppend(a, b[..|b| - 1], s);
    }
  }

  /** Every finding is a blocker or a recommendation, so the two counts add
      up to the number of findings. */
  lemma {:induction false} CountTotal(findings: seq<Finding>)
    ensures Count(findings, Blocker) + Count(findings, Recommend) == |findings|
    decreases |findings|
  {
    if findings != [] {
      CountTotal(findings[..|findings| - 1]);
    }
  }

  /** The count of a severity is positive exactly when a finding has it. */
  lemma {:induction false} CountPositive(findings: seq<Finding>, s: Severity)
    ensures Count(findings, s) > 0 <==> exists i :: 0 <= i < |findings| && findings[i].severity == s
    decreases |findings|
  {
    if findings != [] {
      var front := findings[..|findings| - 1];
      CountPositive(front, s);
      if Count(front, s) > 0 {
        var i :| 0 <= i < |front| && front[i].severity == s;
        assert findings[i].severity == s;
      }
      if exists i :: 0 <= i < |findings| && findings[i].severity == s {
        var i :| 0 <= i < |findings| && findings[i].severity == s;
        if i < |front| {
          assert front[i].severity == s;
        }
      }
    }
  }

  /** `process.exit(blockerCount > 0 ? 1 : 0)` */
  function ExitCode(blockerCount: nat): (code: int)
    ensures code == 0 || code == 1
    ensures code == 1 <==> blockerCount > 0
  {
    if blockerCount > 0 then 1 else 0
  }

  /** The tools fail exactly when a finding is a blocker. */
  lemma ExitCodeIffBlocker(findings: seq<Finding>)
    ensures ExitCode(Count(findings, Blocker)) == 1 <==> exists i :: 0 <= i < |findings| && findings[i].severity == Blocker
    ensures ExitCode(Count(findings, Blocker)) == 0 <==> forall i :: 0 <= i < |findings| ==> findings[i].severity == Recommend
  {
    CountPositive(findings, Blocker);
  }

  /** `finding.severity === 'blocker' ? 'error' : 'warning'` */
  function Level(s: Severity): (r: string)
    ensures r == "error" <==> s == Blocker
    ensures r == "warning" <==> s == Recommend
  {
    assert "error"[0] != "warning"[0];
    match s
    case Blocker => "error"
    case Recommend => "warning"
  }

  /** `::${level} file=${file},line=${line},col=${col},title=${title}::${message}`:
      the workflow command GitHub Actions turns into an annotation. */
  function Annotation(s: Severity, file: string, line: string, col: string, title: string, message: string): (r: string)
    ensures HasPrefix(r, "::error ") <==> s == Blocker
    ensures HasPrefix(r, "::warning ") <==> s == Recommend
  {
    var r := "::" + Level(s) + " file=" + file + ",line=" + line + ",col=" + col + ",title=" + title + "::" + message;
    if s == Blocker then
      assert r[..8] == "::error ";
      assert r[2] != "::warning "[2];
      r
    else
      assert r[..10] == "::warning ";
      assert r[2] != "::error "[2];
      r
  }

  const NoticeTitle: string := "::notice title="
  /** The start of the summary notice printed when there are findings. */
  const SummaryPrefix: string := NoticeTitle + ("ReviewSummary" + "::")

  /** `Found ${blockers} blocker(s) and ${recommends} recommendation(s)`, the
      text of the summary notice both tools print when there are findings. */
  function CountText(blockers: nat, recommends: nat): (r: string)
    ensures HasPrefix(r, "Found ")
  {
    "Found " + (NatToString(blockers) + (" blocker(s) and " + (NatToString(recommends) + " recommendation(s)")))
  }

  /** Two runs of digits, each followed by a text starting with a non-digit,
      can only be equal as a whole if the runs are equal. */
  lemma DigitsThenText(d1: string, t1: string, d2: string, t2: string)
    requires forall i :: 0 <= i < |d1| ==> '0' <= d1[i] <= '9'
    requires forall i :: 0 <= i < |d2| ==> '0' <= d2[i] <= '9'
    requires |t1| > 0 && t1[0] == ' ' && |t2| > 0 && t2[0] == ' '
    requires d1 + t1 == d2 + t2
    ensures d1 == d2 && t1 == t2
  {
    assert d1 == (d1 + t1)[..|d1|];
    assert d2 == (d2 + t2)[..|d2|];
    assert t1 == (d1 + t1)[|d1|..];
    assert t2 == (d2 + t2)[|d2|..];
  }

  /** The summary text names its counters unambiguously: two summaries are
      equal only when both counts agree. */
  lemma CountTextInjective(b1: nat, r1: nat, b2: nat, r2: nat)
    requires CountText(b1, r1) == CountText(b2, r2)
    ensures b1 == b2 && r1 == r2
  {
    var found, middle, tail := "Found ", " blocker(s) and ", " recommendation(s)";
    var m1 := middle + (NatToString(r1) + tail);
    var m2 := middle + (NatToString(r2) + tail);
    assert NatToString(b1) + m1 == CountText(b1, r1)[|found|..];
    assert NatToString(b2) + m2 == CountText(b2, r2)[|found|..];
    DigitsThenText(NatToString(b1), m1, NatToString(b2), m2);
    NatToStringRoundTrip(b1);
    NatToStringRoundTrip(b2);
    assert NatToString(r1) + tail == m1[|middle|..];
    assert NatToString(r2) + tail == m2[|middle|..];
    DigitsThenText(NatToString(r1), tail, NatToString(r2), tail);
    NatToStringRoundTrip(r1);
    NatToStringRoundTrip(r2);
  }

  /** How a tool turns one ESLint message into a finding. */
  type Normalize = (string, LintMessage) -> Finding

  /** The findings of one ESLint result, in message order. */
  function ResultFindings(result: LintResult, normalize: Normalize): (r: seq<Finding>)
    ensures |r| == |result.messages|
    ensures forall j :: 0 <= j < |r| ==> r[j] == normalize(result.filePath, result.messages[j])
  {
    seq(|result.messages|, j requires 0 <= j < |result.messages| => normalize(result.filePath, result.messages[j]))
  }

  /** The findings of all ESLint results, in result order. */
  function LintFindings(results: seq<LintResult>, normalize: Normalize): seq<Finding> {
    if results == [] then []
    else LintFindings(results[..|results| - 1], normalize) + ResultFindings(results[|results| - 1], normalize)
  }

  lemma LintFindingsSnoc(results: seq<LintResult>, i: nat, normalize: Normalize)
    requires i < |results|
    ensures LintFindings(results[..i + 1], normalize) == LintFindings(results[..i], normalize) + ResultFindings(results[i], normalize)
  {
    assert results[..i + 1][..i] == results[..i];
  }

  /** The loop over ESLint's results and their messages: each finding is
      pushed and counted as a blocker or a recommendation. */
  method CollectLint(results: seq<LintResult>, normalize: Normalize)
    returns (findings: seq<Finding>, blockerCount: nat, recommendCount: nat)
    ensures findings == LintFindings(results, normalize)
    ensures blockerCount == Count(findings, Blocker) && recommendCount == Count(findings, Recommend)
  {
    findings, blockerCount, recommendCount := [], 0, 0;
    for i := 0 to |results|
      invariant findings == LintFindings(results[..i], normalize)
      invariant blockerCount == Count(findings, Blocker) && recommendCount == Count(findings, Recommend)
    {
      LintFindingsSnoc(results, i, normalize);
      findings, blockerCount, recommendCount := CollectResult(results[i], normalize, findings, blockerCount, recommendCount);
    }
    assert results[..|results|] == results;
  }

  /** The inner loop, over the messages of one result. */
  method CollectResult(result: LintResult, normalize: Normalize, findings: seq<Finding>, blockerCount: nat, recommendCount: nat)
    returns (findings': seq<Finding>, blockerCount': nat, recommendCount': nat)
    requires blockerCount == Count(findings, Blocker) && recommendCount == Count(findings, Recommend)
    ensures findings' == findings + ResultFindings(result, normalize)
    ensures blockerCount' == Count(findings', Blocker) && recommendCount' == Count(findings', Recommend)
  {
    findings', blockerCount', recommendCount' := findings, blockerCount, recommendCount;
    for j := 0 to |result.messages|
      invariant findings' == findings + ResultFindings(result, normalize)[..j]
      invariant blockerCount' == Count(findings', Blocker) && recommendCount' == Count(findings', Recommend)
    {
      var finding := normalize(result.filePath, result.messages[j]);
      CountPush(findings', finding, Blocker);
      CountPush(findings', finding, Recommend);
      assert ResultFindings(result, normalize)[..j + 1] == ResultFindings(result, normalize)[..j] + [finding];
      AppendAssoc(findings, ResultFindings(result, normalize)[..j], [finding]);
      findings' := findings' + [finding];
      if finding.severity == Blocker {
        blockerCount' := blockerCount' + 1;
      } else {
        recommendCount' := recommendCount' + 1;
      }
    }
    assert ResultFindings(result, normalize)[..|result.messages|] == ResultFindings(result, normalize);
  }

  /** The printing loop, given how one finding is rendered. */
  method Render(findings: seq<Finding>, render: Finding -> string) returns (lines: seq<string>)
    ensures |lines| == |findings|
    ensures forall i :: 0 <= i < |findings| ==> lines[i] == render(findings[i])
  {
    lines := [];
    for i := 0 to |findings|
      invariant |lines| == i
      invariant forall j :: 0 <= j < i ==> lines[j] == render(findings[j])
    {
      lines := lines + [render(findings[i])];
    }
  }
}
