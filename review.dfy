/** The standalone review script: ESLint's messages become findings with
    defaults for missing positions and rules, each is printed as a GitHub
    Actions annotation, and the script fails when there is a blocker. */
module Review {
  import opened Js
  import opened Text
  import opened Findings

  /** `process.argv[2] || 'src'`, given the arguments after the script. */
  function TargetArg(args: seq<string>): (r: string)
    ensures r != ""
    ensures |args| > 0 && args[0] != "" ==> r == args[0]
    ensures |args| == 0 || args[0] == "" ==> r == "src"
  {
    if |args| > 0 && args[0] != "" then args[0] else "src"
  }

  /** `message.ruleId || 'CodeQuality'` */
  function RuleIdOrDefault(ruleId: Option<string>): string {
    if ruleId.Some? && ruleId.value != "" then ruleId.value else "CodeQuality"
  }

  /** The finding for an ESLint message: line and column default to 1, the
      rule to `CodeQuality`. */
  function FromLintMessage(filePath: string, m: LintMessage): (f: Finding)
    ensures Truthy(f.line) && Truthy(f.column)
    ensures Truthy(m.line) ==> f.line == m.line
    ensures Truthy(m.column) ==> f.column == m.column
    ensures !Truthy(m.line) ==> f.line == Num(1)
    ensures !Truthy(m.column) ==> f.column == Num(1)
    ensures f.ruleId.Some? && f.ruleId.value != ""
    ensures m.ruleId.Some? && m.ruleId.value != "" ==> f.ruleId == m.ruleId
    ensures f.severity == Blocker <==> m.severity == Num(2)
    ensures f.file == filePath && f.message == m.message
  {
    Finding(filePath, Or(m.line, Num(1)), Or(m.column, Num(1)), m.message, Some(RuleIdOrDefault(m.ruleId)),
            SeverityOf(m.severity))
  }

  /** Every finding the script collects has a position and a rule. */
  predicate HasDefaults(f: Finding) {
    Truthy(f.line) && Truthy(f.column) && f.ruleId.Some? && f.ruleId.value != ""
  }

  lemma {:induction false} LintFindingsHaveDefaults(results: seq<LintResult>)
    ensures forall f :: f in LintFindings(results, FromLintMessage) ==> HasDefaults(f)
    decreases |results|
  {
    if results != [] {
      LintFindingsHaveDefaults(results[..|results| - 1]);
      var last := ResultFindings(results[|results| - 1], FromLintMessage);
      assert forall f :: f in last ==> HasDefaults(f);
    }
  }

  /** The findings loop with its two counters, which together count every
      finding. */
  method CollectFindings(results: seq<LintResult>) returns (findings: seq<Finding>, blockerCount: nat, recommendCount: nat)
    ensures findings == LintFindings(results, FromLintMessage)
    ensures blockerCount == Count(findings, Blocker) && recommendCount == Count(findings, Recommend)
    ensures blockerCount + recommendCount == |findings|
    ensures forall f :: f in findings ==> HasDefaults(f)
  {
    findings, blockerCount, recommendCount := CollectLint(results, FromLintMessage);
    CountTotal(findings);
    LintFindingsHaveDefaults(results);
  }

  /** `part.charAt(0).toUpperCase() + part.slice(1)` */
  function CapitalizeFirst(part: string): string {
    if part == [] then [] else [Upper(part[0])] + part[1..]
  }

  function CapitalizeParts(parts: seq<string>): (r: seq<string>)
    ensures |r| == |parts| && forall i :: 0 <= i < |r| ==> r[i] == CapitalizeFirst(parts[i])
  {
    seq(|parts|, i requires 0 <= i < |parts| => CapitalizeFirst(parts[i]))
  }

  /** `ruleId.split('/').map(...).join('/')` */
  function Capitalized(s: string): string {
    Join(CapitalizeParts(Split(s, '/')), '/')
  }

  /** The same, character by character: a letter at the start or right after
      a `/` is upper-cased, every other character is kept. */
  function UpperAfterSlash(s: string): (r: string)
    ensures |r| == |s|
  {
    seq(|s|, i requires 0 <= i < |s| => if i == 0 || s[i - 1] == '/' then Upper(s[i]) else s[i])
  }

  lemma {:induction false} CapitalizedIsUpperAfterSlash(s: string)
    ensures Capitalized(s) == UpperAfterSlash(s)
    decreases |s|
  {
    if '/' !in s {
      CapitalizedWithoutSlash(s);
    } else {
      CapitalizedAtSlash(s);
      CapitalizedIsUpperAfterSlash(s[IndexOf(s, '/') + 1..]);
      SplitAtSlash(s, IndexOf(s, '/'));
    }
  }

  lemma CapitalizedWithoutSlash(s: string)
    requires '/' !in s
    ensures Capitalized(s) == UpperAfterSlash(s)
  {
    assert Split(s, '/') == [s];
    assert CapitalizeParts([s]) == [CapitalizeFirst(s)];
    assert Capitalized(s) == CapitalizeFirst(s);
  }

  /** Capitalising splits at the first slash. */
  lemma CapitalizedAtSlash(s: string)
    requires '/' in s
    ensures Capitalized(s) == CapitalizeFirst(s[..IndexOf(s, '/')]) + ['/'] + Capitalized(s[IndexOf(s, '/') + 1..])
  {
    SplitAtFirst(s, '/');
    CapitalizeCons(s[..IndexOf(s, '/')], Split(s[IndexOf(s, '/') + 1..], '/'));
  }

  lemma CapitalizeCons(head: string, parts: seq<string>)
    requires |parts| >= 1
    ensures Join(CapitalizeParts([head] + parts), '/') == CapitalizeFirst(head) + ['/'] + Join(CapitalizeParts(parts), '/')
  {
    var tail := CapitalizeParts(parts);
    assert CapitalizeParts([head] + parts) == [CapitalizeFirst(head)] + tail;
    JoinCons(CapitalizeFirst(head), tail, '/');
  }

  lemma JoinCons(x: string, tail: seq<string>, c: char)
    requires |tail| >= 1
    ensures Join([x] + tail, c) == x + [c] + Join(tail, c)
  {
    assert ([x] + tail)[1..] == tail;
  }

  lemma SplitAtSlash(s: string, k: nat)
    requires k < |s| && s[k] == '/' && '/' !in s[..k]
    ensures UpperAfterSlash(s) == CapitalizeFirst(s[..k]) + ['/'] + UpperAfterSlash(s[k + 1..])
  {
    var lhs, rhs := UpperAfterSlash(s), CapitalizeFirst(s[..k]) + ['/'] + UpperAfterSlash(s[k + 1..]);
    assert |rhs| == |s|;
    forall i | 0 <= i < |s|
      ensures lhs[i] == rhs[i]
    {
      if i < k {
        if i > 0 {
          assert s[i - 1] == s[..k][i - 1];
        }
      } else if i > k {
        assert rhs[i] == UpperAfterSlash(s[k + 1..])[i - k - 1];
      }
    }
  }

  /** `getRuleTitle(ruleId)`: `CodeQuality` for a missing or empty rule, the
      rule with each `/`-separated part capitalised for the project's own
      `shoptet/` rules, any other rule as it is. */
  function RuleTitle(ruleId: Option<string>): (r: string)
    ensures ruleId.None? || ruleId == Some("") ==> r == "CodeQuality"
    ensures ruleId.Some? && ruleId.value != "" && !HasPrefix(ruleId.value, "shoptet/") ==> r == ruleId.value
    ensures ruleId.Some? && HasPrefix(ruleId.value, "shoptet/") ==> r == UpperAfterSlash(ruleId.value)
  {
    if ruleId.None? || ruleId.value == "" then "CodeQuality"
    else if HasPrefix(ruleId.value, "shoptet/") then
      CapitalizedIsUpperAfterSlash(ruleId.value);
      Capitalized(ruleId.value)
    else ruleId.value
  }

  /** A `shoptet/` title keeps the rule's length and its slashes, and
      differs from it only in upper-cased letters. */
  lemma ShoptetTitleShape(ruleId: string)
    requires HasPrefix(ruleId, "shoptet/")
    ensures var r := RuleTitle(Some(ruleId));
      |r| == |ruleId| && HasPrefix(r, "Shoptet/") &&
      forall i :: 0 <= i < |r| ==> (r[i] == '/' <==> ruleId[i] == '/') && (r[i] == ruleId[i] || r[i] == Upper(ruleId[i]))
  {
    var r := RuleTitle(Some(ruleId));
    assert r == UpperAfterSlash(ruleId);
    assert ruleId[..8] == "shoptet/";
    forall i | 0 <= i < 8
      ensures r[i] == "Shoptet/"[i]
    {
      assert ruleId[i] == "shoptet/"[i];
      if i > 0 {
        assert ruleId[i - 1] == "shoptet/"[i - 1] != '/';
      }
    }
  }

  /** The rule of the project itself. */
  lemma RequireCacheTitle()
    ensures RuleTitle(Some("shoptet/require-cache")) == "Shoptet/Require-cache"
  {
    var s := "shoptet/require-cache";
    assert HasPrefix(s, "shoptet/");
    var r := UpperAfterSlash(s);
    assert r[0] == 'S' && r[8] == 'R';
    assert r == "Shoptet/Require-cache";
  }

  /** `message.replace(/\r?\n/g, ' ')`: every line break, `\n` or `\r\n`,
      becomes one space; a `\r` on its own is kept. */
  function Flatten(s: string): (r: string)
    ensures '\n' !in r
    ensures '\n' !in s ==> r == s
    ensures |r| <= |s|
    decreases |s|
  {
    if s == [] then []
    else if |s| >= 2 && s[0] == '\r' && s[1] == '\n' then " " + Flatten(s[2..])
    else if s[0] == '\n' then " " + Flatten(s[1..])
    else [s[0]] + Flatten(s[1..])
  }

  /** Flattening works piece by piece, except across a `\r` that ends the
      first piece and a `\n` that starts the second, which together are one
      line break. */
  lemma {:induction false} FlattenConcat(a: string, b: string)
    requires a == [] || b == [] || a[|a| - 1] != '\r' || b[0] != '\n'
    ensures Flatten(a + b) == Flatten(a) + Flatten(b)
    decreases |a|
  {
    var s := a + b;
    if a == [] {
      assert s == b;
    } else if |a| >= 2 && a[0] == '\r' && a[1] == '\n' {
      assert s[0] == '\r' && s[1] == '\n' && s[2..] == a[2..] + b;
      FlattenConcat(a[2..], b);
      assert Flatten(s) == " " + Flatten(a[2..] + b);
      AppendAssoc(" ", Flatten(a[2..]), Flatten(b));
    } else if |a| == 1 && a[0] == '\r' {
      assert s == ['\r'] + b && s[1..] == b;
      assert Flatten(a) == ['\r'];
    } else {
      var head := if a[0] == '\n' then " " else [a[0]];
      assert s[0] == a[0] && s[1..] == a[1..] + b;
      assert !(|s| >= 2 && s[0] == '\r' && s[1] == '\n');
      FlattenConcat(a[1..], b);
      assert Flatten(s) == head + Flatten(a[1..] + b);
      assert Flatten(a) == head + Flatten(a[1..]);
      AppendAssoc(head, Flatten(a[1..]), Flatten(b));
    }
  }

  /** A `\n` not preceded by `\r` becomes one space, and the text on both
      sides is flattened on its own. */
  lemma FlattenLineFeed(a: string, b: string)
    requires a == [] || a[|a| - 1] != '\r'
    ensures Flatten(a + "\n" + b) == Flatten(a) + " " + Flatten(b)
  {
    FlattenAfterLineFeed(b);
    FlattenConcat(a, "\n" + b);
    AppendAssoc(a, "\n", b);
    AppendAssoc(Flatten(a), " ", Flatten(b));
  }

  lemma FlattenAfterLineFeed(b: string)
    ensures Flatten("\n" + b) == " " + Flatten(b)
  {
    assert ("\n" + b)[1..] == b;
  }

  /** A `\r\n` becomes one space, and the text on both sides is flattened on
      its own. */
  lemma FlattenCrLf(a: string, b: string)
    ensures Flatten(a + "\r\n" + b) == Flatten(a) + " " + Flatten(b)
  {
    FlattenAfterCrLf(b);
    FlattenConcat(a, "\r\n" + b);
    AppendAssoc(a, "\r\n", b);
    AppendAssoc(Flatten(a), " ", Flatten(b));
  }

  lemma FlattenAfterCrLf(b: string)
    ensures Flatten("\r\n" + b) == " " + Flatten(b)
  {
    assert ("\r\n" + b)[2..] == b;
  }

  /** Flattening a flattened message changes nothing. */
  lemma FlattenIdempotent(s: string)
    ensures Flatten(Flatten(s)) == Flatten(s)
  {
  }

  /** The annotation printed for a finding, given its path relative to the
      working directory: `error` exactly for blockers, the message on one
      line. */
  function AnnotationOf(relativePath: string, f: Finding): (r: string)
    ensures HasPrefix(r, "::error ") <==> f.severity == Blocker
    ensures HasPrefix(r, "::warning ") <==> f.severity == Recommend
    ensures r == Annotation(f.severity, relativePath, ToString(f.line), ToString(f.column), RuleTitle(f.ruleId),
                            Flatten(f.message))
  {
    Annotation(f.severity, relativePath, ToString(f.line), ToString(f.column), RuleTitle(f.ruleId), Flatten(f.message))
  }

  const CleanPrefix: string := NoticeTitle + ("CodeReview" + "::")
  const CleanText: string := "✅ No issues found - code looks good!"

  /** A summary of counts is never the clean bill: the titles differ. */
  lemma SummaryIsNotClean(text: string)
    ensures SummaryPrefix + text != CleanPrefix + CleanText
  {
    assert (SummaryPrefix + text)[|NoticeTitle|] == 'R';
    assert (CleanPrefix + CleanText)[|NoticeTitle|] == 'C';
  }

  /** The closing notice, given the counters the caller kept: a clean bill
      with a check mark exactly when there are no findings, otherwise the
      summary of the two counters. */
  function SummaryLine(findings: seq<Finding>, blockerCount: nat, recommendCount: nat): (r: string)
    ensures r == CleanPrefix + CleanText <==> findings == []
    ensures findings == [] ==> '✅' in r
    ensures findings != [] ==> HasPrefix(r, SummaryPrefix + "Found ")
    ensures findings != [] ==> r == SummaryPrefix + CountText(blockerCount, recommendCount)
  {
    if findings == [] then
      assert (CleanPrefix + CleanText)[|CleanPrefix|] == CleanText[0] == '✅';
      CleanPrefix + CleanText
    else
      var r := SummaryPrefix + CountText(blockerCount, recommendCount);
      SummaryIsNotClean(CountText(blockerCount, recommendCount));
      assert r[..|SummaryPrefix + "Found "|] == SummaryPrefix + "Found ";
      r
  }

  /** Reading the counters back off the summary: the line names exactly the
      two counters it was given, and only when there are findings. */
  lemma SummaryReportsCounters(findings: seq<Finding>, blockerCount: nat, recommendCount: nat, blockers: nat, recommends: nat)
    ensures SummaryLine(findings, blockerCount, recommendCount) == SummaryPrefix + CountText(blockers, recommends) <==>
            findings != [] && blockers == blockerCount && recommends == recommendCount
  {
    var text := CountText(blockers, recommends);
    SummaryIsNotClean(text);
    if findings != [] && SummaryLine(findings, blockerCount, recommendCount) == SummaryPrefix + text {
      var actual := CountText(blockerCount, recommendCount);
      assert SummaryPrefix + actual == SummaryPrefix + text;
      assert actual == (SummaryPrefix + actual)[|SummaryPrefix|..];
      assert text == (SummaryPrefix + text)[|SummaryPrefix|..];
      CountTextInjective(blockers, recommends, blockerCount, recommendCount);
    }
  }

  /** The script's run: the findings, one annotation per finding and the
      summary, and the exit code, which is 1 exactly when a finding is a
      blocker. */
  method Review(results: seq<LintResult>, relativePath: string -> string)
    returns (findings: seq<Finding>, lines: seq<string>, exitCode: int)
    ensures findings == LintFindings(results, FromLintMessage)
    ensures |lines| == |findings| + 1
    ensures forall i :: 0 <= i < |findings| ==> lines[i] == AnnotationOf(relativePath(findings[i].file), findings[i])
    ensures lines[|findings|] == SummaryLine(findings, Count(findings, Blocker), Count(findings, Recommend))
    ensures lines[|findings|] == CleanPrefix + CleanText <==> findings == []
    ensures findings != [] ==> lines[|findings|] == SummaryPrefix + CountText(Count(findings, Blocker), Count(findings, Recommend))
    ensures Count(findings, Blocker) + Count(findings, Recommend) == |findings|
    ensures exitCode == 1 <==> exists i :: 0 <= i < |findings| && findings[i].severity == Blocker
    ensures exitCode == 0 <==> forall i :: 0 <= i < |findings| ==> findings[i].severity == Recommend
  {
    var blockerCount, recommendCount;
    findings, blockerCount, recommendCount := CollectFindings(results);
    lines := Render(findings, (f: Finding) => AnnotationOf(relativePath(f.file), f));
    lines := lines + [SummaryLine(findings, blockerCount, recommendCount)];
    ExitCodeIffBlocker(findings);
    CountTotal(findings);
    exitCode := ExitCode(blockerCount);
  }
}
