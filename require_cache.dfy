/** The ESLint rule `shoptet/require-cache`: the same checks as the validator,
    written against ESLint's syntax tree (`Literal` for strings, template
    literals accepted) and reporting through `context.report`. */
module RequireCache {
  import opened Js
  import opened Text
  import opened Patterns
  import opened Nodes

  /** One `context.report(...)`: the node reported on, and the message with
      its data (`missingCache` with `method`, or `verifyXHR`). */
  datatype Report = MissingCache(node: Value, methodName: Value) | VerifyXhr(node: Value)

  /** The message text ESLint builds from `meta.messages`, substituting
      `{{method}}` with the string form of `data.method`. */
  function Message(r: Report): (m: string)
    ensures Contains(m, "/cache/")
  {
    match r
    case MissingCache(_, methodName) =>
      ContainsMiddle("Missing ", "/cache/", " in " + ToString(methodName) + " call to Shoptet server");
      "Missing " + "/cache/" + (" in " + ToString(methodName) + " call to Shoptet server")
    case VerifyXhr(_) =>
      ContainsMiddle("XMLHttpRequest detected - verify it uses ", "/cache/", " for Shoptet API calls");
      "XMLHttpRequest detected - verify it uses " + "/cache/" + " for Shoptet API calls"
  }

  /** A URL the rule rejects: a string on a Shoptet server without `/cache/`. */
  predicate IsViolating(url: Value) {
    url.Str? && MissesCache(url.s)
  }

  /** The text of a template literal: `node.quasis[0].value.cooked` when
      `node.quasis.length` is 1 (no interpolation), `null` otherwise. Throws
      when `quasis` is missing or `null` (reading its `length`), and when the
      quasi or its `value` is. */
  function TemplateText(node: Value): (r: Completion<Value>)
    ensures var quasis := Property(node, "quasis");
      r == if Nullish(node) || Nullish(quasis) then Abrupt
           else if Property(quasis, "length") != Num(1) then Normal(Null)
           else if Nullish(Element(quasis, 0)) || Nullish(Property(Element(quasis, 0), "value")) then Abrupt
           else Normal(Property(Property(Element(quasis, 0), "value"), "cooked"))
    ensures Property(node, "quasis").Arr? ==>
      var quasis := Property(node, "quasis").items;
      r == if |quasis| != 1 then Normal(Null)
           else if Nullish(quasis[0]) || Nullish(Property(quasis[0], "value")) then Abrupt
           else Normal(Property(Property(quasis[0], "value"), "cooked"))
  {
    var quasis :- Get(node, "quasis");
    var length :- Get(quasis, "length");
    if length != Num(1) then Normal(Null)
    else
      var quasi :- Index(quasis, 0);
      var value :- Get(quasi, "value");
      Get(value, "cooked")
  }

  /** `isViolatingUrl(node)`: only a `Literal` or `TemplateLiteral` can be
      violating, and only reading a template's parts can throw. */
  function IsViolatingUrl(node: Value): (r: Completion<bool>)
    ensures r == Normal(true) ==>
      Truthy(node) && (Property(node, "type") == Str("Literal") || Property(node, "type") == Str("TemplateLiteral"))
    ensures r.Abrupt? ==> Truthy(node) && Property(node, "type") == Str("TemplateLiteral")
  {
    if !Truthy(node) then Normal(false)
    else
      var kind := Property(node, "type");
      if kind != Str("Literal") && kind != Str("TemplateLiteral") then Normal(false)
      else
        var url :- if kind == Str("Literal") then Normal(Property(node, "value")) else TemplateText(node);
        Normal(url.Str? && ShoptetDomain(url.s) && !HasCachePath(url.s))
  }

  /** `isViolatingUrl` is false for a missing node and for every node type
      but `Literal` and `TemplateLiteral`; on a literal, it is whether its
      value is a violating string; on a template, it throws when `quasis` is
      missing, and otherwise is whether its only quasi's cooked text is one,
      so never for a template with interpolation or with a `null` cooked
      text. */
  lemma IsViolatingUrlCases(node: Value)
    ensures !Truthy(node) ==> IsViolatingUrl(node) == Normal(false)
    ensures Property(node, "type") != Str("Literal") && Property(node, "type") != Str("TemplateLiteral") ==>
      IsViolatingUrl(node) == Normal(false)
    ensures Truthy(node) && Property(node, "type") == Str("Literal") ==>
      IsViolatingUrl(node) == Normal(IsViolating(Property(node, "value")))
    ensures Truthy(node) && Property(node, "type") == Str("TemplateLiteral") ==>
      var quasis := Property(node, "quasis");
      IsViolatingUrl(node) ==
        if Nullish(quasis) then Abrupt
        else if Property(quasis, "length") != Num(1) then Normal(false)
        else if Nullish(Element(quasis, 0)) || Nullish(Property(Element(quasis, 0), "value")) then Abrupt
        else Normal(IsViolating(Property(Property(Element(quasis, 0), "value"), "cooked")))
    ensures Truthy(node) && Property(node, "type") == Str("TemplateLiteral") && Property(node, "quasis").Arr? ==>
      var quasis := Property(node, "quasis").items;
      IsViolatingUrl(node) ==
        if |quasis| != 1 then Normal(false)
        else if Nullish(quasis[0]) || Nullish(Property(quasis[0], "value")) then Abrupt
        else Normal(IsViolating(Property(Property(quasis[0], "value"), "cooked")))
  {
  }

  /** A template literal without `quasis` makes `isViolatingUrl` throw. */
  lemma TemplateWithoutQuasisThrows()
    ensures IsViolatingUrl(Obj([("type", Str("TemplateLiteral"))])).Abrupt?
  {
    var template := Obj([("type", Str("TemplateLiteral"))]);
    assert Property(template, "type") == Str("TemplateLiteral");
    assert Property(template, "quasis") == Undefined;
    assert TemplateText(template) == Abrupt;
  }

  /** So does the `CallExpression` handler of a `fetch` call carrying such
      a template. */
  lemma FetchOfTemplateWithoutQuasisThrows()
    ensures CallReports(Obj([("type", Str("CallExpression")),
                             ("callee", Obj([("type", Str("Identifier")), ("name", Str("fetch"))])),
                             ("arguments", Arr([Obj([("type", Str("TemplateLiteral"))])]))])).Abrupt?
  {
    var template := Obj([("type", Str("TemplateLiteral"))]);
    var callee := Obj([("type", Str("Identifier")), ("name", Str("fetch"))]);
    var call := Obj([("type", Str("CallExpression")), ("callee", callee), ("arguments", Arr([template]))]);
    assert |"type"| != |"callee"| && |"type"| != |"arguments"| && |"callee"| != |"arguments"|;
    assert call.fields[0].0 == "type" && call.fields[1].0 == "callee" && call.fields[2].0 == "arguments";
    assert Lookup(call.fields, "callee") == callee;
    assert Lookup(call.fields, "arguments") == Arr([template]);
    assert Callee(call) == callee && Property(call, "arguments") == Arr([template]);
    assert Property(callee, "type") == Str("Identifier") && Property(callee, "name") == Str("fetch");
    assert IsFetchCall(call);
    assert Property(Arr([template]), "length") == Num(1);
    assert HasArguments(call) == Normal(true);
    assert FetchCondition(call) == Normal(true);
    assert FirstArgument(call) == template;
    TemplateWithoutQuasisThrows();
    assert FetchReports(call) == Abrupt;
  }

  /** A URL that contains `/cache/` never violates, whatever node carries it. */
  lemma CachedNeverViolates(node: Value)
    ensures IsViolatingUrl(node) == Normal(true) ==>
      (Property(node, "type") == Str("Literal") && Property(node, "value").Str? && !HasCachePath(Property(node, "value").s)) ||
      (Property(node, "type") == Str("TemplateLiteral") && TemplateText(node).Normal? && TemplateText(node).value.Str? &&
       !HasCachePath(TemplateText(node).value.s))
  {
  }

  /** `getMethodName(node)`: the callee's name for a plain identifier,
      `$.` and the property's name for a member callee with a property, and
      `AJAX` otherwise. Throws when the node has no callee. */
  function GetMethodName(node: Value): (r: Completion<Value>)
    ensures r.Abrupt? <==> Nullish(node) || Nullish(Callee(node))
    ensures r.Normal? && Property(Callee(node), "type") == Str("Identifier") ==> r.value == Property(Callee(node), "name")
    ensures r.Normal? && Property(Callee(node), "type") == Str("MemberExpression") && Truthy(Property(Callee(node), "property")) ==>
      r.value == Str("$." + ToString(Property(Property(Callee(node), "property"), "name")))
    ensures r.Normal? && Property(Callee(node), "type") != Str("Identifier") &&
      (Property(Callee(node), "type") != Str("MemberExpression") || !Truthy(Property(Callee(node), "property")))
      ==> r.value == Str("AJAX")
  {
    var callee :- Get(node, "callee");
    var kind :- Get(callee, "type");
    if kind == Str("Identifier") then Normal(Property(callee, "name"))
    else if kind == Str("MemberExpression") && Truthy(Property(callee, "property")) then
      Normal(Str("$." + ToString(Property(Property(callee, "property"), "name"))))
    else Normal(Str("AJAX"))
  }

  /** The condition of the first `if`: a `fetch` callee and at least one
      argument. */
  function FetchCondition(node: Value): (r: Completion<bool>)
    ensures r == Normal(true) <==> IsFetchCall(node) && HasArguments(node) == Normal(true)
    ensures !IsFetchCall(node) && !Nullish(Callee(node)) ==> r == Normal(false)
  {
    var callee :- Get(node, "callee");
    var kind :- Get(callee, "type");
    if kind == Str("Identifier") && Property(callee, "name") == Str("fetch") then HasArguments(node) else Normal(false)
  }

  /** The condition of the second `if`: a `$.post`, `$.get` or `$.ajax`
      callee and at least one argument. Throws on a member callee without
      `object`, or with the `$` object but no `property`. */
  function JQueryCondition(node: Value): (r: Completion<bool>)
    ensures r == Normal(true) <==> IsJQueryCall(node) && HasArguments(node) == Normal(true)
    ensures !Nullish(Callee(node)) && Property(Callee(node), "type") != Str("MemberExpression") ==> r == Normal(false)
  {
    var callee :- Get(node, "callee");
    var kind :- Get(callee, "type");
    if kind != Str("MemberExpression") then Normal(false)
    else
      var objectName :- Get(Property(callee, "object"), "name");
      if objectName != Str("$") then Normal(false)
      else
        var name :- Get(Property(callee, "property"), "name");
        if name in [Str("post"), Str("get"), Str("ajax")] then HasArguments(node) else Normal(false)
  }

  /** The body of either `if`: a `missingCache` report on the first argument
      when it is a violating URL, with the method name computed only then. */
  function BranchReports(node: Value, methodName: Completion<Value>): (r: Completion<seq<Report>>)
    ensures r.Normal? ==> |r.value| <= 1
    ensures r.Normal? && r.value != [] ==>
      methodName.Normal? && IsViolatingUrl(FirstArgument(node)) == Normal(true) &&
      r.value == [MissingCache(FirstArgument(node), methodName.value)]
    ensures IsViolatingUrl(FirstArgument(node)) == Normal(true) && methodName.Normal? ==>
      r == Normal([MissingCache(FirstArgument(node), methodName.value)])
    ensures IsViolatingUrl(FirstArgument(node)) == Normal(false) ==> r == Normal([])
  {
    var firstArg := FirstArgument(node);
    var violating :- IsViolatingUrl(firstArg);
    if violating then
      var name :- methodName;
      Normal([MissingCache(firstArg, name)])
    else Normal([])
  }

  /** The reports of the `CallExpression` handler, or the TypeError it throws.
      At most one report, since the two checks need different callee types;
      it is on the first argument, which is a violating URL, and names the
      call style: `fetch`, or `$.post`, `$.get` or `$.ajax`. */
  function CallReports(node: Value): (r: Completion<seq<Report>>)
    ensures r.Normal? ==> |r.value| <= 1
    ensures r.Normal? && r.value != [] ==>
      HasArguments(node) == Normal(true) && IsViolatingUrl(FirstArgument(node)) == Normal(true) &&
      ((IsFetchCall(node) && r.value[0] == MissingCache(FirstArgument(node), Str("fetch"))) ||
       (IsJQueryCall(node) && r.value[0] == MissingCache(FirstArgument(node), Str("$." + ToString(CalleeMethod(node))))))
  {
    var fetched :- FetchReports(node);
    var queried :- JQueryReports(node);
    Normal(fetched + queried)
  }

  /** The first `if` of the `CallExpression` handler: a report, with method
      `fetch`, exactly for a `fetch` call with arguments whose first
      argument is violating. */
  function FetchReports(node: Value): (r: Completion<seq<Report>>)
    ensures r.Normal? ==> |r.value| <= 1
    ensures r.Normal? && r.value != [] ==>
      IsFetchCall(node) && HasArguments(node) == Normal(true) && IsViolatingUrl(FirstArgument(node)) == Normal(true) &&
      r.value == [MissingCache(FirstArgument(node), Str("fetch"))]
    ensures IsFetchCall(node) && HasArguments(node) == Normal(true) && IsViolatingUrl(FirstArgument(node)) == Normal(true) ==>
      r == Normal([MissingCache(FirstArgument(node), Str("fetch"))])
    ensures !IsFetchCall(node) && !Nullish(Callee(node)) ==> r == Normal([])
  {
    var fetchCall :- FetchCondition(node);
    if fetchCall then BranchReports(node, Normal(Str("fetch"))) else Normal([])
  }

  /** The second `if` of the `CallExpression` handler: a report, with method
      `$.` and the method name, exactly for a `$.post/get/ajax` call with
      arguments whose first argument is violating. */
  function JQueryReports(node: Value): (r: Completion<seq<Report>>)
    ensures r.Normal? ==> |r.value| <= 1
    ensures r.Normal? && r.value != [] ==>
      IsJQueryCall(node) && HasArguments(node) == Normal(true) && IsViolatingUrl(FirstArgument(node)) == Normal(true) &&
      r.value == [MissingCache(FirstArgument(node), Str("$." + ToString(CalleeMethod(node))))]
    ensures IsJQueryCall(node) && HasArguments(node) == Normal(true) && IsViolatingUrl(FirstArgument(node)) == Normal(true) ==>
      r == Normal([MissingCache(FirstArgument(node), Str("$." + ToString(CalleeMethod(node))))])
    ensures !Nullish(Callee(node)) && Property(Callee(node), "type") != Str("MemberExpression") ==> r == Normal([])
  {
    var jQueryCall :- JQueryCondition(node);
    if jQueryCall then
      JQueryMethodName(node);
      BranchReports(node, GetMethodName(node))
    else Normal([])
  }

  /** On a `$.post/get/ajax` call, `getMethodName` gives `$.` followed by
      the method name. */
  lemma JQueryMethodName(node: Value)
    requires IsJQueryCall(node)
    ensures GetMethodName(node) == Normal(Str("$." + ToString(CalleeMethod(node))))
  {
    assert Property(Callee(node), "property").Obj?;
  }

  /** A `fetch` call is no member call: once the first check holds, the
      second is false and cannot throw. */
  lemma FetchExcludesJQuery(node: Value)
    requires FetchReports(node).Normal? && FetchReports(node).value != []
    ensures JQueryReports(node) == Normal([])
  {
    assert !Nullish(Callee(node));
    assert JQueryCondition(node) == Normal(false);
  }

  /** The reports of the `NewExpression` handler: one `verifyXHR` report on
      the new-expression itself for `new XMLHttpRequest(...)`, whatever its
      arguments. Throws when the node has no callee. */
  function NewReports(node: Value): (r: Completion<seq<Report>>)
    ensures r.Abrupt? <==> Nullish(node) || Nullish(Callee(node))
    ensures r.Normal? ==> r.value == if IsXhrConstruction(node) then [VerifyXhr(node)] else []
  {
    var callee :- Get(node, "callee");
    var kind :- Get(callee, "type");
    if kind == Str("Identifier") && Property(callee, "name") == Str("XMLHttpRequest") then Normal([VerifyXhr(node)])
    else Normal([])
  }

  /** `fetch(url, ...)` with a violating first argument: one report on that
      argument, with method `fetch`. */
  lemma FetchReported(node: Value)
    requires IsFetchCall(node) && HasArguments(node) == Normal(true)
    requires IsViolatingUrl(FirstArgument(node)) == Normal(true)
    ensures CallReports(node) == Normal([MissingCache(FirstArgument(node), Str("fetch"))])
  {
    var report := MissingCache(FirstArgument(node), Str("fetch"));
    assert FetchCondition(node) == Normal(true);
    assert BranchReports(node, Normal(Str("fetch"))) == Normal([report]);
    assert !Nullish(Callee(node));
    assert JQueryCondition(node) == Normal(false);
    assert [report] + [] == [report];
  }

  /** `$.post/get/ajax(url, ...)` with a violating first argument: one report
      on that argument, with method `$.` and the property name. */
  lemma JQueryReported(node: Value)
    requires IsJQueryCall(node) && HasArguments(node) == Normal(true)
    requires IsViolatingUrl(FirstArgument(node)) == Normal(true)
    ensures CallReports(node) == Normal([MissingCache(FirstArgument(node), Str("$." + ToString(CalleeMethod(node))))])
  {
    var report := MissingCache(FirstArgument(node), Str("$." + ToString(CalleeMethod(node))));
    assert !Nullish(Callee(node));
    assert FetchCondition(node) == Normal(false);
    assert JQueryCondition(node) == Normal(true);
    JQueryMethodName(node);
    assert BranchReports(node, GetMethodName(node)) == Normal([report]);
    assert [] + [report] == [report];
  }

  /** A member callee on another object than `$`, or with another method
      name, yields nothing. */
  lemma OtherMembersNotReported(node: Value)
    requires !Nullish(Callee(node)) && Property(Callee(node), "type") == Str("MemberExpression")
    requires !IsJQueryCallee(node)
    ensures CallReports(node).Normal? ==> CallReports(node).value == []
  {
    assert FetchCondition(node) == Normal(false);
    assert JQueryCondition(node) != Normal(true);
  }

  /** The state ESLint keeps for one file: the reports made so far. */
  class RuleContext {
    var reports: seq<Report>

    constructor ()
      ensures reports == []
    {
      reports := [];
    }

    /** `context.report(...)` */
    method Report(report: Report)
      modifies this
      ensures reports == old(reports) + [report]
    {
      reports := reports + [report];
    }

    /** The `CallExpression` handler. A TypeError it throws is returned as
        `threw`; no report precedes a throw. */
    method CallExpression(node: Value) returns (threw: bool)
      modifies this
      ensures threw <==> CallReports(node).Abrupt?
      ensures reports == old(reports) + (if threw then [] else CallReports(node).value)
    {
      threw := CheckFetch(node);
      if threw {
        return;
      }
      if FetchReports(node).value != [] {
        FetchExcludesJQuery(node);
      }
      threw := CheckJQuery(node);
      if !threw {
        AppendAssoc(old(reports), FetchReports(node).value, JQueryReports(node).value);
      }
    }

    /** `fetch(url, ...)` */
    method CheckFetch(node: Value) returns (threw: bool)
      modifies this
      ensures threw <==> FetchReports(node).Abrupt?
      ensures reports == old(reports) + (if threw then [] else FetchReports(node).value)
    {
      var fetchCall := FetchCondition(node);
      if fetchCall.Abrupt? {
        return true;
      }
      if fetchCall.value {
        var firstArg := FirstArgument(node);
        var violating := IsViolatingUrl(firstArg);
        if violating.Abrupt? {
          return true;
        }
        if violating.value {
          Report(MissingCache(firstArg, Str("fetch")));
        }
      }
      return false;
    }

    /** `$.post(url, ...)`, `$.get(url, ...)` and `$.ajax(url, ...)` */
    method CheckJQuery(node: Value) returns (threw: bool)
      modifies this
      ensures threw <==> JQueryReports(node).Abrupt?
      ensures reports == old(reports) + (if threw then [] else JQueryReports(node).value)
    {
      var jQueryCall := JQueryCondition(node);
      if jQueryCall.Abrupt? {
        return true;
      }
      if jQueryCall.value {
        var firstArg := FirstArgument(node);
        var violating := IsViolatingUrl(firstArg);
        if violating.Abrupt? {
          return true;
        }
        if violating.value {
          var name := GetMethodName(node);
          if name.Abrupt? {
            return true;
          }
          Report(MissingCache(firstArg, name.value));
        }
      }
      return false;
    }

    /** The `NewExpression` handler. */
    method NewExpression(node: Value) returns (threw: bool)
      modifies this
      ensures threw <==> NewReports(node).Abrupt?
      ensures reports == old(reports) + (if threw then [] else NewReports(node).value)
    {
      var callee := Get(node, "callee");
      if callee.Abrupt? {
        return true;
      }
      var kind := Get(callee.value, "type");
      if kind.Abrupt? {
        return true;
      }
      if kind.value == Str("Identifier") && Property(callee.value, "name") == Str("XMLHttpRequest") {
        Report(VerifyXhr(node));
      }
      return false;
    }
  }
}
