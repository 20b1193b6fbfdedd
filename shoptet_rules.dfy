/** The standalone syntax-tree validator: `validateShoptetCache` walks the
    parsed program with two visitors that push a violation for every `fetch`
    or jQuery AJAX call with a literal Shoptet URL that lacks `/cache/`, and for
    every `new XMLHttpRequest`. */
module ShoptetRules {
  import opened Js
  import opened Patterns
  import opened Nodes
  import opened Traversal

  /** `{ line, column, message }` as pushed to `violations`. */
  datatype Violation = Violation(line: Value, column: Value, message: string)

  /** The three messages, each written around the word `cache` it contains. */
  const FetchMessage: string := "Chybí /" + "cache" + "/ v XHR volání na Shoptet server"
  const JQueryMessage: string := "Chybí /" + "cache" + "/ v jQuery AJAX volání na Shoptet server"
  const XhrMessage: string := "XMLHttpRequest detekován - zkontrolovat, zda používá /" + "cache" + "/ pro Shoptet API"

  /** A `StringLiteral` (Babel) or `Literal` (ESTree) node. */
  predicate IsStringLiteral(arg: Value) {
    Property(arg, "type") == Str("StringLiteral") || Property(arg, "type") == Str("Literal")
  }

  /** A first argument the validator flags: a string literal whose value is a
      string naming a Shoptet server without `/cache/`. */
  predicate FlaggedLiteral(arg: Value) {
    IsStringLiteral(arg) && Property(arg, "value").Str? && MissesCache(Property(arg, "value").s)
  }

  /** The test on `firstArg`: its type, then `typeof url === 'string'` and the
      two patterns on `url = firstArg.value`. Throws for a missing argument. */
  function LiteralMissesCache(arg: Value): (r: Completion<bool>)
    ensures r.Abrupt? <==> Nullish(arg)
    ensures r.Normal? ==> (r.value <==> FlaggedLiteral(arg))
  {
    var kind :- Get(arg, "type");
    if kind == Str("StringLiteral") || kind == Str("Literal") then
      var url := Property(arg, "value");
      Normal(url.Str? && MissesCache(url.s))
    else
      Normal(false)
  }

  /** `node.arguments.length > 0` and then the test on `node.arguments[0]`. */
  function Flagged(node: Value): (r: Completion<bool>)
    ensures Property(node, "arguments").Arr? && r.Normal? ==>
      (r.value <==> |Property(node, "arguments").items| > 0 && FlaggedLiteral(Property(node, "arguments").items[0]))
    ensures r == Normal(true) ==> FlaggedLiteral(FirstArgument(node))
  {
    var some :- HasArguments(node);
    if some then LiteralMissesCache(FirstArgument(node)) else Normal(false)
  }

  /** The violation pushed for `node`: at `node.loc.start`. */
  function ReportAt(node: Value, message: string): (r: Completion<seq<Violation>>)
    ensures r.Normal? ==> r.value == [Violation(Property(Start(node), "line"), Property(Start(node), "column"), message)]
    ensures r.Abrupt? <==> StartOf(node).Abrupt?
  {
    var start :- StartOf(node);
    Normal([Violation(start.0, start.1, message)])
  }

  /** One violation with `message` when the call's first argument is flagged. */
  function WhenFlagged(node: Value, message: string): (r: Completion<seq<Violation>>)
    ensures r.Normal? ==> |r.value| <= 1
    ensures r.Normal? && r.value != [] ==>
      Flagged(node) == Normal(true) && r.value[0] == Violation(Property(Start(node), "line"), Property(Start(node), "column"), message)
    ensures Flagged(node) == Normal(true) && StartOf(node).Normal? ==> r.Normal? && |r.value| == 1
    ensures Flagged(node) == Normal(false) ==> r == Normal([])
  {
    var flagged :- Flagged(node);
    if flagged then ReportAt(node, message) else Normal([])
  }

  /** The first `if` of the `CallExpression` visitor. */
  function FetchViolations(node: Value): (r: Completion<seq<Violation>>)
    ensures r.Normal? ==> |r.value| <= 1
    ensures r.Normal? && r.value != [] ==>
      IsFetchCall(node) && Flagged(node) == Normal(true) &&
      r.value[0] == Violation(Property(Start(node), "line"), Property(Start(node), "column"), FetchMessage)
    ensures IsFetchCall(node) && Flagged(node) == Normal(true) && StartOf(node).Normal? ==> r.Normal? && |r.value| == 1
    ensures !IsFetchCall(node) ==> r == Normal([])
  {
    if IsFetchCall(node) then WhenFlagged(node, FetchMessage) else Normal([])
  }

  /** The second `if` of the `CallExpression` visitor, once `node.callee.type`
      is `MemberExpression`: `node.callee.object.name === '$'`, then the three
      method names. Throws when the callee has no `object`, or has the `$`
      object but no `property`. */
  function JQueryViolations(node: Value): (r: Completion<seq<Violation>>)
    ensures r.Normal? ==> |r.value| <= 1
    ensures r.Normal? && r.value != [] ==>
      IsJQueryCallee(node) && Flagged(node) == Normal(true) &&
      r.value[0] == Violation(Property(Start(node), "line"), Property(Start(node), "column"), JQueryMessage)
    ensures IsJQueryCallee(node) && Flagged(node) == Normal(true) && StartOf(node).Normal? ==> r.Normal? && |r.value| == 1
    ensures r.Normal? && !IsJQueryCallee(node) ==> r.value == []
  {
    var objectName :- Get(Property(Callee(node), "object"), "name");
    if objectName != Str("$") then Normal([])
    else
      var name :- Get(Property(Callee(node), "property"), "name");
      if name == Str("post") || name == Str("get") || name == Str("ajax") then WhenFlagged(node, JQueryMessage)
      else Normal([])
  }

  /** The `CallExpression` visitor: what it pushes, or the TypeError it throws
      on a node without `callee` or `loc`, or a member callee without
      `object`, or a `$` callee without `property`. At most one violation per
      call, since the two checks need different callee types; exactly one for
      a `fetch` or `$.post/get/ajax` call whose first argument is flagged, at
      the call's own start position. */
  function CallExpressionHandler(node: Value): (r: Completion<seq<Violation>>)
    ensures r.Normal? ==> |r.value| <= 1
    ensures r.Normal? && r.value != [] ==>
      (IsFetchCall(node) || IsJQueryCall(node)) && Flagged(node) == Normal(true) &&
      r.value[0] == Violation(Property(Start(node), "line"), Property(Start(node), "column"),
                              if IsFetchCall(node) then FetchMessage else JQueryMessage)
    ensures (IsFetchCall(node) || IsJQueryCall(node)) && Flagged(node) == Normal(true) && StartOf(node).Normal? ==>
      r.Normal? && |r.value| == 1
  {
    var callee :- Get(node, "callee");
    var calleeType :- Get(callee, "type");
    // the first check reads `node.callee.type` again, which cannot throw now
    var fetched :- FetchViolations(node);
    var queried :- if calleeType == Str("MemberExpression") then JQueryViolations(node) else Normal([]);
    Normal(fetched + queried)
  }

  /** The `NewExpression` visitor: one violation at the node's start for
      `new XMLHttpRequest(...)`, whatever its arguments, and none otherwise. */
  function NewExpressionHandler(node: Value): (r: Completion<seq<Violation>>)
    ensures r.Normal? ==> |r.value| <= 1
    ensures r.Normal? && r.value != [] ==>
      IsXhrConstruction(node) &&
      r.value[0] == Violation(Property(Start(node), "line"), Property(Start(node), "column"), XhrMessage)
    ensures IsXhrConstruction(node) && StartOf(node).Normal? ==> r.Normal? && |r.value| == 1
    ensures !Nullish(Callee(node)) && !IsXhrConstruction(node) ==> r == Normal([])
  {
    var callee :- Get(node, "callee");
    var calleeType :- Get(callee, "type");
    if calleeType == Str("Identifier") && Property(callee, "name") == Str("XMLHttpRequest") then ReportAt(node, XhrMessage)
    else Normal([])
  }

  /** The visitor object handed to `traverse`. */
  function ShoptetVisitors(): Visitors<Violation> {
    map["CallExpression" := (node, parent) => CallExpressionHandler(node),
        "NewExpression" := (node, parent) => NewExpressionHandler(node)]
  }

  /** `validateShoptetCache` given the parser's outcome: `None` when parsing
      failed. A TypeError in a visitor escapes the function. */
  function Validate(parsed: Option<Value>): (r: Completion<seq<Violation>>)
    ensures parsed.None? ==> r == Normal([])
  {
    match parsed
    case None => Normal([])
    case Some(ast) => Run(ShoptetVisitors(), Visits(ast, Null))
  }

  /** `validateShoptetCache`: walks the tree with a `violations` list the
      visitors push to. */
  method ValidateShoptetCache(parsed: Option<Value>) returns (r: Completion<seq<Violation>>)
    ensures r == Validate(parsed)
  {
    if parsed.None? {
      return Normal([]);
    }
    var walker := new Walker<Violation>();
    assert Validate(parsed) == Run(ShoptetVisitors(), Visits(parsed.value, Null));
    var threw := walker.Traverse(parsed.value, ShoptetVisitors(), Null);
    if threw {
      return Abrupt;
    }
    var run := Run(ShoptetVisitors(), Visits(parsed.value, Null));
    assert walker.pushed == [] + run.value == run.value;
    assert run == Normal(run.value);
    return Normal(walker.pushed);
  }

  /** A call with no argument gives no violation. */
  lemma NoArgumentsNoViolation(node: Value)
    requires Property(node, "arguments") == Arr([])
    ensures CallExpressionHandler(node).Normal? ==> CallExpressionHandler(node).value == []
  {
    assert Flagged(node) == Normal(false);
  }

  /** A first argument that is not a string literal (a template, an
      identifier, a concatenation, ...) gives no violation. */
  lemma OtherArgumentKindsNoViolation(node: Value)
    requires Property(node, "arguments").Arr? && |Property(node, "arguments").items| > 0
    requires !IsStringLiteral(Property(node, "arguments").items[0])
    ensures CallExpressionHandler(node).Normal? ==> CallExpressionHandler(node).value == []
  {
    assert !FlaggedLiteral(Property(node, "arguments").items[0]);
  }

  /** The visit dispatches to a non-empty visitor: its node's type is
      `CallExpression` or `NewExpression` (as a property key). */
  predicate IsHandled(w: Visit) {
    ToString(NodeType(w.node)) in {"CallExpression", "NewExpression"}
  }

  /** The number of visits that reach one of the two visitors. */
  function Handled(ws: seq<Visit>): nat {
    if ws == [] then 0 else Handled(ws[..|ws| - 1]) + (if IsHandled(ws[|ws| - 1]) then 1 else 0)
  }

  predicate IsValidatorMessage(m: string) {
    m == FetchMessage || m == JQueryMessage || m == XhrMessage
  }

  /** What one visit pushes: nothing unless it is a handled node, at most one
      violation, with one of the three messages. */
  lemma DispatchViolations(w: Visit)
    ensures var out := Dispatch(ShoptetVisitors(), w);
      out.Normal? ==>
        (|out.value| <= (if IsHandled(w) then 1 else 0) &&
         forall v :: v in out.value ==> IsValidatorMessage(v.message))
  {
    var key := ToString(NodeType(w.node));
    if key == "CallExpression" {
      assert Dispatch(ShoptetVisitors(), w) == CallExpressionHandler(w.node);
      SingleMessage(CallExpressionHandler(w.node));
    } else if key == "NewExpression" {
      assert Dispatch(ShoptetVisitors(), w) == NewExpressionHandler(w.node);
      SingleMessage(NewExpressionHandler(w.node));
    } else {
      assert Dispatch(ShoptetVisitors(), w) == Normal([]);
    }
  }

  lemma SingleMessage(out: Completion<seq<Violation>>)
    requires out.Normal? ==> |out.value| <= 1 && (out.value != [] ==> IsValidatorMessage(out.value[0].message))
    ensures out.Normal? ==> forall v :: v in out.value ==> IsValidatorMessage(v.message)
  {
    if out.Normal? && out.value != [] {
      assert out.value == [out.value[0]];
    }
  }

  lemma {:induction false} RunViolations(ws: seq<Visit>)
    ensures var r := Run(ShoptetVisitors(), ws);
      r.Normal? ==> |r.value| <= Handled(ws) && forall v :: v in r.value ==> IsValidatorMessage(v.message)
    decreases |ws|
  {
    if ws != [] {
      RunViolations(ws[..|ws| - 1]);
      DispatchViolations(ws[|ws| - 1]);
    }
  }

  /** Over a whole program: at most one violation per call or new-expression
      node visited, each with one of the three messages. */
  lemma ValidateViolations(ast: Value)
    ensures var r := Validate(Some(ast));
      r.Normal? ==>
        (|r.value| <= Handled(Visits(ast, Null)) &&
         forall v :: v in r.value ==> IsValidatorMessage(v.message))
  {
    RunViolations(Visits(ast, Null));
  }

  /** The violations are what the visitors push, concatenated in traversal
      order: nothing is dropped, reordered or merged. The validation throws
      exactly when a visitor throws on some visited node. */
  lemma ValidateInTraversalOrder(ast: Value)
    ensures Validate(Some(ast)) ==
      if exists i :: 0 <= i < |Visits(ast, Null)| && Dispatch(ShoptetVisitors(), Visits(ast, Null)[i]).Abrupt? then Abrupt
      else Normal(Pushed(ShoptetVisitors(), Visits(ast, Null)))
  {
    RunIsConcatenation(ShoptetVisitors(), Visits(ast, Null));
  }
}
