/** The reads of syntax-tree nodes both detectors share: the argument list of
    a call and the start position of a node. Each may throw, as in
    JavaScript, when an intermediate property is `null` or `undefined`. */
module Nodes {
  import opened Js

  predicate Nullish(v: Value) {
    v == Undefined || v == Null
  }

  /** `node.arguments.length > 0` */
  function HasArguments(node: Value): (r: Completion<bool>)
    ensures r.Abrupt? <==> Nullish(node) || Nullish(Property(node, "arguments"))
    ensures r.Normal? && Property(node, "arguments").Arr? ==>
      r.value == (|Property(node, "arguments").items| > 0)
  {
    var args :- Get(node, "arguments");
    var length :- Get(args, "length");
    Normal(IsPositive(length))
  }

  /** `node.arguments[0]`, read where `node.arguments` is known not to be
      nullish (after `node.arguments.length > 0`), so it cannot throw. */
  function FirstArgument(node: Value): (r: Value)
    ensures Property(node, "arguments").Arr? && |Property(node, "arguments").items| > 0 ==>
      r == Property(node, "arguments").items[0]
  {
    Element(Property(node, "arguments"), 0)
  }

  /** `node.loc.start` */
  function Start(node: Value): Value {
    Property(Property(node, "loc"), "start")
  }

  /** `node.loc.start.line` and `node.loc.start.column` */
  function StartOf(node: Value): (r: Completion<(Value, Value)>)
    ensures r.Abrupt? <==> Nullish(node) || Nullish(Property(node, "loc")) || Nullish(Start(node))
    ensures r.Normal? ==> r.value == (Property(Start(node), "line"), Property(Start(node), "column"))
  {
    var loc :- Get(node, "loc");
    var start :- Get(loc, "start");
    var line :- Get(start, "line");
    // `start` is known not to be nullish here, so the second read cannot throw
    Normal((line, Property(start, "column")))
  }

  function Callee(node: Value): Value {
    Property(node, "callee")
  }

  /** `node.callee.type === 'Identifier' && node.callee.name === 'fetch'` */
  predicate IsFetchCall(node: Value) {
    Property(Callee(node), "type") == Str("Identifier") && Property(Callee(node), "name") == Str("fetch")
  }

  /** `node.callee.property.name` */
  function CalleeMethod(node: Value): Value {
    Property(Property(Callee(node), "property"), "name")
  }

  /** `node.callee.object.name === '$'` and a method name `post`, `get` or `ajax` */
  predicate IsJQueryCallee(node: Value) {
    Property(Property(Callee(node), "object"), "name") == Str("$") &&
    CalleeMethod(node) in {Str("post"), Str("get"), Str("ajax")}
  }

  /** `$.post(...)`, `$.get(...)` or `$.ajax(...)` */
  predicate IsJQueryCall(node: Value) {
    Property(Callee(node), "type") == Str("MemberExpression") && IsJQueryCallee(node)
  }

  /** `new XMLHttpRequest(...)` */
  predicate IsXhrConstruction(node: Value) {
    Property(Callee(node), "type") == Str("Identifier") && Property(Callee(node), "name") == Str("XMLHttpRequest")
  }
}
