/** The generic depth-first walker of `review_tool/validators/shoptet-rules.js`
    (`traverse`): it calls the visitor registered for a node's `type` with the
    node and its parent, then walks every property of the node except the
    position fields `loc`, `start` and `end`, visiting the elements of an array
    property one by one and an object property as a whole.

    `Visits` is the specification: the pre-order list of (node, parent) pairs
    the visitors see. `Walker.Traverse` is the recursive procedure with its
    `for ... in` loop and `forEach`, proved to run the visitors of exactly that
    list, in that order. */
module Traversal {
  import opened Js

  /** A property key: an object's property name or an array index. */
  datatype Key = Prop(name: string) | Position(index: nat)

  /** What `for (const key in node)` enumerates, with `node[key]`. */
  function Entries(v: Value): seq<(Key, Value)> {
    match v
    case Obj(fs) => seq(|fs|, i requires 0 <= i < |fs| => (Prop(fs[i].0), fs[i].1))
    case Arr(xs) => seq(|xs|, i requires 0 <= i < |xs| => (Position(i), xs[i]))
    case _ => []
  }

  /** The position metadata the walker never descends into. */
  predicate IsSkipped(k: Key) {
    k == Prop("loc") || k == Prop("start") || k == Prop("end")
  }

  /** Number of values in a tree: the termination measure of the walk. */
  function Size(v: Value): nat
    decreases v, 1
  {
    match v
    case Obj(fs) => 1 + FieldsSize(v, fs)
    case Arr(xs) => 1 + ItemsSize(v, xs)
    case _ => 1
  }

  /** The sizes of the values of some of `owner`'s fields, added up. */
  function FieldsSize(owner: Value, fs: seq<(string, Value)>): nat
    requires owner.Obj? && forall e :: e in fs ==> e in owner.fields
    decreases owner, 0, |fs|
  {
    if fs == [] then 0
    else
      var e := fs[|fs| - 1];
      assert e in owner.fields;
      FieldsSize(owner, fs[..|fs| - 1]) + Size(e.1)
  }

  /** The sizes of some of `owner`'s items, added up. */
  function ItemsSize(owner: Value, xs: seq<Value>): nat
    requires owner.Arr? && forall x :: x in xs ==> x in owner.items
    decreases owner, 0, |xs|
  {
    if xs == [] then 0
    else
      var x := xs[|xs| - 1];
      assert x in owner.items;
      ItemsSize(owner, xs[..|xs| - 1]) + Size(x)
  }

  lemma {:induction false} FieldsSizeBound(owner: Value, fs: seq<(string, Value)>, i: nat)
    requires owner.Obj? && (forall e :: e in fs ==> e in owner.fields) && i < |fs|
    ensures Size(fs[i].1) <= FieldsSize(owner, fs)
    decreases |fs|
  {
    if i < |fs| - 1 {
      FieldsSizeBound(owner, fs[..|fs| - 1], i);
    }
  }

  lemma {:induction false} ItemsSizeBound(owner: Value, xs: seq<Value>, i: nat)
    requires owner.Arr? && (forall x :: x in xs ==> x in owner.items) && i < |xs|
    ensures Size(xs[i]) <= ItemsSize(owner, xs)
    decreases |xs|
  {
    if i < |xs| - 1 {
      ItemsSizeBound(owner, xs[..|xs| - 1], i);
    }
  }

  lemma EntrySmaller(v: Value, i: nat)
    requires i < |Entries(v)|
    ensures Size(Entries(v)[i].1) < Size(v)
  {
    match v
    case Obj(fs) =>
      FieldsSizeBound(v, fs, i);
    case Arr(xs) =>
      ItemsSizeBound(v, xs, i);
  }

  lemma ItemSmaller(xs: seq<Value>, j: nat)
    requires j < |xs|
    ensures Size(xs[j]) < Size(Arr(xs))
  {
    assert Entries(Arr(xs))[j].1 == xs[j];
    EntrySmaller(Arr(xs), j);
  }

  /** The values `traverse` is called on for one entry of a node: every
      element of an array, or the value itself if it is a (non-array)
      object; nothing for a position field or a primitive. */
  function HeldBy(e: (Key, Value)): seq<Value> {
    if IsSkipped(e.0) then []
    else match e.1
      case Arr(ys) => ys
      case Obj(_) => [e.1]
      case _ => []
  }

  function HeldFrom(es: seq<(Key, Value)>): seq<Value> {
    if es == [] then [] else HeldFrom(es[..|es| - 1]) + HeldBy(es[|es| - 1])
  }


  lemma {:induction false} HeldFromAppend(a: seq<(Key, Value)>, b: seq<(Key, Value)>)
    ensures HeldFrom(a + b) == HeldFrom(a) + HeldFrom(b)
    decreases |b|
  {
    if b == [] {
      assert a + b == a;
    } else {
      assert (a + b)[..|a + b| - 1] == a + b[..|b| - 1];
      HeldFromAppend(a, b[..|b| - 1]);
      AppendAssoc(HeldFrom(a), HeldFrom(b[..|b| - 1]), HeldBy(b[|b| - 1]));
    }
  }

  lemma {:induction false} HeldFromSmaller(es: seq<(Key, Value)>, bound: nat)
    requires forall i :: 0 <= i < |es| ==> Size(es[i].1) < bound
    ensures forall h :: h in HeldFrom(es) ==> Size(h) < bound
    decreases |es|
  {
    if es != [] {
      HeldFromSmaller(es[..|es| - 1], bound);
      var e := es[|es| - 1];
      if e.1.Arr? && !IsSkipped(e.0) {
        forall j | 0 <= j < |e.1.items| ensures Size(e.1.items[j]) < bound {
          ItemSmaller(e.1.items, j);
        }
      }
    }
  }

  lemma HeldSmaller(v: Value)
    ensures forall h :: h in HeldFrom(Entries(v)) ==> Size(h) < Size(v)
  {
    forall i | 0 <= i < |Entries(v)| ensures Size(Entries(v)[i].1) < Size(v) {
      EntrySmaller(v, i);
    }
    HeldFromSmaller(Entries(v), Size(v));
  }

  /** The values `traverse` is called on with `v` as the parent, in call
      order; each is smaller than `v`. */
  function Held(v: Value): (r: seq<Value>)
    ensures forall h :: h in r ==> Size(h) < Size(v)
  {
    HeldSmaller(v);
    HeldFrom(Entries(v))
  }

  /** One call of a visitor: the node and the parent it is given. */
  datatype Visit = Visit(node: Value, parent: Value)

  /** The pre-order list of the (node, parent) pairs `traverse(v, _, parent)`
      reaches: every object or array, the root first. */
  function Visits(v: Value, parent: Value): (r: seq<Visit>)
    ensures r != [] <==> IsObject(v)
    ensures r != [] ==> r[0] == Visit(v, parent)
    decreases Size(v), 1
  {
    if IsObject(v) then
      [Visit(v, parent)] + VisitAll(Held(v), v)
    else []
  }

  /** The visits of `traverse(h, _, owner)` for each `h` of `hs` in turn. */
  function VisitAll(hs: seq<Value>, owner: Value): seq<Visit>
    requires forall h :: h in hs ==> Size(h) < Size(owner)
    decreases Size(owner), 0, |hs|
  {
    if hs == [] then [] else VisitAll(hs[..|hs| - 1], owner) + Visits(hs[|hs| - 1], owner)
  }

  lemma {:induction false} VisitAllAppend(a: seq<Value>, b: seq<Value>, owner: Value)
    requires forall h :: h in a + b ==> Size(h) < Size(owner)
    ensures VisitAll(a + b, owner) == VisitAll(a, owner) + VisitAll(b, owner)
    decreases |b|
  {
    if b == [] {
      assert a + b == a;
    } else {
      assert (a + b)[..|a + b| - 1] == a + b[..|b| - 1];
      VisitAllAppend(a, b[..|b| - 1], owner);
      AppendAssoc(VisitAll(a, owner), VisitAll(b[..|b| - 1], owner), Visits(b[|b| - 1], owner));
    }
  }

  /** Properties are walked in key order: the visits under the first `k`
      entries of a node all come before the visits under the rest. */
  lemma VisitsInEntryOrder(v: Value, parent: Value, k: nat)
    requires IsObject(v) && k <= |Entries(v)|
    ensures var held, n := Held(v), |HeldFrom(Entries(v)[..k])|;
      n <= |held| && held[..n] == HeldFrom(Entries(v)[..k]) &&
      Visits(v, parent) == [Visit(v, parent)] + VisitAll(held[..n], v) + VisitAll(held[n..], v)
  {
    var es, held := Entries(v), Held(v);
    var n := |HeldFrom(es[..k])|;
    assert es == es[..k] + es[k..];
    HeldFromAppend(es[..k], es[k..]);
    assert held == held[..n] + held[n..];
    VisitAllAppend(held[..n], held[n..], v);
    AppendAssoc([Visit(v, parent)], VisitAll(held[..n], v), VisitAll(held[n..], v));
  }

  /** Changing what a position field holds changes nothing the walker calls
      `traverse` on. */
  lemma {:induction false} HeldIgnoresSkipped(fs: seq<(string, Value)>, i: nat, x: Value)
    requires i < |fs| && IsSkipped(Prop(fs[i].0))
    ensures Held(Obj(fs[i := (fs[i].0, x)])) == Held(Obj(fs))
  {
    var es, es' := Entries(Obj(fs)), Entries(Obj(fs[i := (fs[i].0, x)]));
    assert es' == es[i := (Prop(fs[i].0), x)];
    assert es == es[..i] + [es[i]] + es[i + 1..];
    assert es' == es[..i] + [es'[i]] + es[i + 1..];
    HeldFromAppend(es[..i] + [es[i]], es[i + 1..]);
    HeldFromAppend(es[..i], [es[i]]);
    HeldFromAppend(es[..i] + [es'[i]], es[i + 1..]);
    HeldFromAppend(es[..i], [es'[i]]);
    assert HeldFrom([es[i]]) == HeldBy(es[i]) == [];
    assert HeldFrom([es'[i]]) == HeldBy(es'[i]) == [];
  }

  /** The parent of visit `i` holds its node and was visited before it. */
  predicate ParentSeenBefore(ws: seq<Visit>, i: nat)
    requires i < |ws|
  {
    ws[i].node in Held(ws[i].parent) && exists j :: 0 <= j < i && ws[j].node == ws[i].parent
  }

  /** Visit `i` is of one of the values `owner` holds, with `owner` as parent. */
  predicate HeldByOwner(ws: seq<Visit>, i: nat, hs: seq<Value>, owner: Value)
    requires i < |ws|
  {
    ws[i].parent == owner && ws[i].node in hs
  }

  predicate ParentsKnown(ws: seq<Visit>, hs: seq<Value>, owner: Value) {
    forall i :: 0 <= i < |ws| ==> HeldByOwner(ws, i, hs, owner) || ParentSeenBefore(ws, i)
  }

  /** Every visit of `VisitAll(hs, owner)` gets as parent either `owner`
      (holding it directly in `hs`) or a node visited earlier that holds it. */
  lemma {:induction false} VisitAllParents(hs: seq<Value>, owner: Value)
    requires forall h :: h in hs ==> Size(h) < Size(owner)
    ensures ParentsKnown(VisitAll(hs, owner), hs, owner)
    decreases Size(owner), 1, |hs|
  {
    if hs != [] {
      var front, h := hs[..|hs| - 1], hs[|hs| - 1];
      assert hs == front + [h];
      VisitAllParents(front, owner);
      if IsObject(h) {
        VisitAllParentsStep(front, h, owner);
      } else {
        var ws0, ws := VisitAll(front, owner), VisitAll(hs, owner);
        assert ws == ws0;
        forall i | 0 <= i < |ws|
          ensures HeldByOwner(ws, i, hs, owner) || ParentSeenBefore(ws, i)
        {
          if HeldByOwner(ws0, i, front, owner) {
            assert HeldByOwner(ws, i, hs, owner);
          }
        }
      }
    }
  }

  /** The step of `VisitAllParents` for a last value that is an object: its
      own visit, with `owner` as parent, then the visits below it. */
  lemma {:induction false} VisitAllParentsStep(front: seq<Value>, h: Value, owner: Value)
    requires forall x :: x in front ==> Size(x) < Size(owner)
    requires Size(h) < Size(owner) && IsObject(h)
    requires ParentsKnown(VisitAll(front, owner), front, owner)
    ensures ParentsKnown(VisitAll(front + [h], owner), front + [h], owner)
    decreases Size(owner), 0
  {
    var hs := front + [h];
    assert hs[..|hs| - 1] == front;
    var ws0, ws, inner := VisitAll(front, owner), VisitAll(hs, owner), VisitAll(Held(h), h);
    assert ws == ws0 + Visits(h, owner);
    assert Visits(h, owner) == [Visit(h, owner)] + inner;
    AppendAssoc(ws0, [Visit(h, owner)], inner);
    VisitAllParents(Held(h), h);
    ParentsKnownJoin(ws0, front, h, owner, inner);
  }

  /** The visits of the values before `h`, then `h`'s own visit with `owner`
      as parent, then the visits below `h`: every parent is accounted for. */
  lemma ParentsKnownJoin(ws0: seq<Visit>, front: seq<Value>, h: Value, owner: Value, inner: seq<Visit>)
    requires ParentsKnown(ws0, front, owner)
    requires ParentsKnown(inner, Held(h), h)
    ensures ParentsKnown(ws0 + [Visit(h, owner)] + inner, front + [h], owner)
  {
    var ws, hs := ws0 + [Visit(h, owner)] + inner, front + [h];
    forall i | 0 <= i < |ws|
      ensures HeldByOwner(ws, i, hs, owner) || ParentSeenBefore(ws, i)
    {
      if i < |ws0| {
        assert ws[i] == ws0[i];
        if HeldByOwner(ws0, i, front, owner) {
          assert HeldByOwner(ws, i, hs, owner);
        } else {
          var j :| 0 <= j < i && ws0[j].node == ws0[i].parent;
          assert ws[j] == ws0[j];
        }
      } else if i == |ws0| {
        assert ws[i] == Visit(h, owner);
      } else {
        var k := i - |ws0| - 1;
        assert ws[i] == inner[k];
        if HeldByOwner(inner, k, Held(h), h) {
          assert ws[|ws0|].node == h;
        } else {
          var j :| 0 <= j < k && inner[j].node == inner[k].parent;
          assert ws[j + |ws0| + 1] == inner[j];
        }
        assert ParentSeenBefore(ws, i);
      }
    }
  }

  /** Pre-order with correct parents: the root is visited first with the
      parent it was given (`null` at the top), and every later node is
      visited with the node that holds it as parent, which was visited
      before it. Hence a node's visitor runs before its descendants'. */
  lemma ParentsVisitedFirst(v: Value, parent: Value)
    ensures var ws := Visits(v, parent);
      (ws != [] ==> ws[0] == Visit(v, parent)) &&
      forall i :: 0 < i < |ws| ==> ParentSeenBefore(ws, i)
  {
    if IsObject(v) {
      VisitAllParents(Held(v), v);
      RootFirst(v, parent, VisitAll(Held(v), v));
    }
  }

  /** The visit of a root followed by visits whose parents are the root or
      visited earlier: every visit after the first has its parent before it. */
  lemma RootFirst(v: Value, parent: Value, rest: seq<Visit>)
    requires ParentsKnown(rest, Held(v), v)
    ensures forall i :: 0 < i < |[Visit(v, parent)] + rest| ==> ParentSeenBefore([Visit(v, parent)] + rest, i)
  {
    var ws := [Visit(v, parent)] + rest;
    forall i | 0 < i < |ws|
      ensures ParentSeenBefore(ws, i)
    {
      assert ws[i] == rest[i - 1];
      if HeldByOwner(rest, i - 1, Held(v), v) {
        assert ws[0].node == v;
      } else {
        var j :| 0 <= j < i - 1 && rest[j].node == rest[i - 1].parent;
        assert ws[j + 1] == rest[j];
      }
    }
  }

  /** A visitor: given the node and its parent, what it pushes, or a throw. */
  type Handler<T> = (Value, Value) -> Completion<seq<T>>

  /** The object of visitors keyed by node type. */
  type Visitors<T> = map<string, Handler<T>>

  /** `node.type` of an object or array. */
  function NodeType(v: Value): Value {
    if v.Obj? then Lookup(v.fields, "type") else Undefined
  }

  /** `if (visitors[nodeType]) visitors[nodeType](node, parent)`: the property
      key is the string form of the type. */
  function Dispatch<T>(visitors: Visitors<T>, w: Visit): (r: Completion<seq<T>>)
    ensures ToString(NodeType(w.node)) !in visitors ==> r == Normal([])
  {
    var key := ToString(NodeType(w.node));
    if key in visitors then visitors[key](w.node, w.parent) else Normal([])
  }

  /** Running the visitors over a list of visits: what they push, in order,
      or a throw that ends the walk at the first visitor that throws. */
  function Run<T>(visitors: Visitors<T>, ws: seq<Visit>): (r: Completion<seq<T>>)
    ensures ws == [] ==> r == Normal([])
    ensures r.Normal? ==> r.value == Pushed(visitors, ws)
  {
    if ws == [] then Normal([])
    else
      var acc :- Run(visitors, ws[..|ws| - 1]);
      var out :- Dispatch(visitors, ws[|ws| - 1]);
      Normal(acc + out)
  }

  /** What the visitors push over a list of visits, ignoring throws. */
  function Pushed<T>(visitors: Visitors<T>, ws: seq<Visit>): seq<T> {
    if ws == [] then []
    else
      var out := Dispatch(visitors, ws[|ws| - 1]);
      Pushed(visitors, ws[..|ws| - 1]) + (if out.Normal? then out.value else [])
  }

  /** The result of two runs one after the other. */
  function Combine<T>(first: Completion<seq<T>>, second: Completion<seq<T>>): Completion<seq<T>> {
    if first.Abrupt? || second.Abrupt? then Abrupt else Normal(first.value + second.value)
  }

  lemma {:induction false} RunAppend<T>(visitors: Visitors<T>, a: seq<Visit>, b: seq<Visit>)
    ensures Run(visitors, a + b) == Combine(Run(visitors, a), Run(visitors, b))
    decreases |b|
  {
    if b == [] {
      assert a + b == a;
      CombineEmpty(Run(visitors, a));
    } else {
      var b', x := b[..|b| - 1], b[|b| - 1];
      assert a + b == (a + b') + [x] && b == b' + [x];
      RunSnoc(visitors, a + b', x);
      RunSnoc(visitors, b', x);
      RunAppend(visitors, a, b');
      CombineAssoc(Run(visitors, a), Run(visitors, b'), Dispatch(visitors, x));
    }
  }

  /** One more visit: the run so far combined with that visit's dispatch. */
  lemma RunSnoc<T>(visitors: Visitors<T>, ws: seq<Visit>, x: Visit)
    ensures Run(visitors, ws + [x]) == Combine(Run(visitors, ws), Dispatch(visitors, x))
  {
    assert (ws + [x])[..|ws|] == ws;
  }

  lemma CombineEmpty<T>(r: Completion<seq<T>>)
    ensures Combine(r, Normal([])) == r
  {
    if r.Normal? {
      assert r.value + [] == r.value;
    }
  }

  lemma CombineAssoc<T>(a: Completion<seq<T>>, b: Completion<seq<T>>, c: Completion<seq<T>>)
    ensures Combine(Combine(a, b), c) == Combine(a, Combine(b, c))
  {
    if a.Normal? && b.Normal? && c.Normal? {
      AppendAssoc(a.value, b.value, c.value);
    }
  }

  lemma RunSingle<T>(visitors: Visitors<T>, w: Visit)
    ensures Run(visitors, [w]) == Dispatch(visitors, w)
  {
    assert [w][..0] == [];
    var out := Dispatch(visitors, w);
    if out.Normal? {
      assert [] + out.value == out.value;
    }
  }

  /** Some visitor throws on one of the visits. */
  predicate SomeVisitThrows<T>(visitors: Visitors<T>, ws: seq<Visit>) {
    exists i :: 0 <= i < |ws| && Dispatch(visitors, ws[i]).Abrupt?
  }

  lemma SomeVisitThrowsSnoc<T>(visitors: Visitors<T>, front: seq<Visit>, last: Visit)
    ensures SomeVisitThrows(visitors, front + [last]) <==>
      SomeVisitThrows(visitors, front) || Dispatch(visitors, last).Abrupt?
  {
    var ws := front + [last];
    if SomeVisitThrows(visitors, front) {
      var i :| 0 <= i < |front| && Dispatch(visitors, front[i]).Abrupt?;
      assert ws[i] == front[i];
    }
    if Dispatch(visitors, last).Abrupt? {
      assert ws[|front|] == last;
    }
    if SomeVisitThrows(visitors, ws) {
      var i :| 0 <= i < |ws| && Dispatch(visitors, ws[i]).Abrupt?;
      if i < |front| {
        assert ws[i] == front[i];
      }
    }
  }

  /** The visitors' output is the concatenation, in visit order, of what each
      visit pushes: nothing is removed, reordered or merged. The walk throws
      exactly when some visitor throws. */
  lemma {:induction false} RunIsConcatenation<T>(visitors: Visitors<T>, ws: seq<Visit>)
    ensures Run(visitors, ws) == if SomeVisitThrows(visitors, ws) then Abrupt else Normal(Pushed(visitors, ws))
    decreases |ws|
  {
    if ws != [] {
      var front, last := ws[..|ws| - 1], ws[|ws| - 1];
      assert ws == front + [last];
      RunIsConcatenation(visitors, front);
      RunSnoc(visitors, front, last);
      SomeVisitThrowsSnoc(visitors, front, last);
    }
  }

  /** The state of one walk: what the visitors have pushed so far. */
  class Walker<T> {
    var pushed: seq<T>

    constructor ()
      ensures pushed == []
    {
      pushed := [];
    }

    /** `traverse(node, visitors, parent)`. Returns whether a visitor threw;
        the walk stops there, as the exception leaves `traverse`. */
    method Traverse(node: Value, visitors: Visitors<T>, parent: Value) returns (threw: bool)
      modifies this
      ensures threw <==> Run(visitors, Visits(node, parent)).Abrupt?
      ensures !threw ==> pushed == old(pushed) + Run(visitors, Visits(node, parent)).value
      decreases Size(node), 4
    {
      if !IsObject(node) {
        assert Visits(node, parent) == [];
        assert pushed == old(pushed) + [];
        return false;
      }
      VisitsSplit(visitors, node, parent);
      var nodeType := NodeType(node);
      var key := ToString(nodeType);
      var out: Completion<seq<T>> := Normal([]);
      if key in visitors {
        out := visitors[key](node, parent);
        if out.Abrupt? {
          return true;
        }
        pushed := pushed + out.value;
      } else {
        assert pushed == old(pushed) + [];
      }
      ghost var before := pushed;
      threw := TraverseChildren(node, visitors);
      if !threw {
        AppendAssoc(old(pushed), out.value, Run(visitors, VisitAll(Held(node), node)).value);
      }
    }

    /** The `for (const key in node)` loop of `traverse`: every entry in
        order, stopping at the first throw. */
    method TraverseChildren(node: Value, visitors: Visitors<T>) returns (threw: bool)
      requires IsObject(node)
      modifies this
      ensures threw <==> Run(visitors, VisitAll(Held(node), node)).Abrupt?
      ensures !threw ==> pushed == old(pushed) + Run(visitors, VisitAll(Held(node), node)).value
      decreases Size(node), 3
    {
      WalkedNone(visitors, node);
      threw := false;
      var i := 0;
      while i < |Entries(node)| && !threw
        invariant i <= |Entries(node)|
        invariant threw ==> Run(visitors, VisitAll(Held(node), node)).Abrupt?
        invariant !threw ==> Walked(visitors, node, i).Normal? && pushed == old(pushed) + Walked(visitors, node, i).value
      {
        threw := TraverseKey(node, visitors, i, old(pushed));
        i := i + 1;
      }
      if !threw {
        WalkedAll(visitors, node);
      }
    }

    /** One pass of the loop, at the `i`-th key of `node`, with `start` the
        state before the loop: a throw is a throw of the whole walk, otherwise
        the walk so far has grown by one entry. */
    method TraverseKey(node: Value, visitors: Visitors<T>, i: nat, ghost start: seq<T>) returns (threw: bool)
      requires i < |Entries(node)| && Walked(visitors, node, i).Normal?
      requires pushed == start + Walked(visitors, node, i).value
      modifies this
      ensures threw ==> Run(visitors, VisitAll(Held(node), node)).Abrupt?
      ensures !threw ==> Walked(visitors, node, i + 1).Normal? && pushed == start + Walked(visitors, node, i + 1).value
      decreases Size(node), 2
    {
      EntryHeldSmaller(node, i);
      ghost var before := pushed;
      threw := TraverseEntry(Entries(node)[i], visitors, node);
      WalkedNext(visitors, node, i);
      CombineStep(Walked(visitors, node, i), EntryRun(visitors, node, i), start, before, pushed, threw);
      if threw {
        WalkedAbrupt(visitors, node, i + 1);
      }
    }

    /** One pass of the `for (const key in node)` loop: a position entry is
        skipped, an array's elements are walked in order, an object is
        walked, anything else is ignored. */
    method TraverseEntry(entry: (Key, Value), visitors: Visitors<T>, owner: Value) returns (threw: bool)
      requires Size(entry.1) < Size(owner)
      requires forall h :: h in HeldBy(entry) ==> Size(h) < Size(owner)
      modifies this
      ensures threw <==> Run(visitors, VisitAll(HeldBy(entry), owner)).Abrupt?
      ensures !threw ==> pushed == old(pushed) + Run(visitors, VisitAll(HeldBy(entry), owner)).value
      decreases Size(owner), 1
    {
      var (key, child) := entry;
      if !IsSkipped(key) && child.Arr? {
        threw := TraverseEach(child.items, visitors, owner);
      } else if !IsSkipped(key) && child.Obj? {
        VisitAllOne(child, owner);
        threw := Traverse(child, visitors, owner);
      } else {
        assert HeldBy(entry) == [] && pushed == old(pushed) + [];
        VisitAllNone(visitors, owner);
        threw := false;
      }
    }

    /** `items.forEach(c => traverse(c, visitors, owner))` */
    method TraverseEach(items: seq<Value>, visitors: Visitors<T>, owner: Value) returns (threw: bool)
      requires forall h :: h in items ==> Size(h) < Size(owner)
      modifies this
      ensures threw <==> Run(visitors, VisitAll(items, owner)).Abrupt?
      ensures !threw ==> pushed == old(pushed) + Run(visitors, VisitAll(items, owner)).value
      decreases Size(owner), 0
    {
      assert VisitAll(items[..0], owner) == [];
      threw := false;
      var j := 0;
      while j < |items| && !threw
        invariant j <= |items|
        invariant threw ==> Run(visitors, VisitAll(items, owner)).Abrupt?
        invariant !threw ==> Run(visitors, VisitAll(items[..j], owner)).Normal?
        invariant !threw ==> pushed == old(pushed) + Run(visitors, VisitAll(items[..j], owner)).value
      {
        ghost var before := pushed;
        threw := Traverse(items[j], visitors, owner);
        EachStep(visitors, items, owner, j);
        CombineStep(Run(visitors, VisitAll(items[..j], owner)), Run(visitors, Visits(items[j], owner)), old(pushed), before, pushed, threw);
        j := j + 1;
      }
      if !threw {
        assert items[..|items|] == items;
      }
    }
  }

  lemma VisitAllNone<T>(visitors: Visitors<T>, owner: Value)
    ensures Run(visitors, VisitAll([], owner)) == Normal([])
  {
  }

  lemma VisitAllOne(child: Value, owner: Value)
    requires Size(child) < Size(owner)
    ensures VisitAll([child], owner) == Visits(child, owner)
  {
    assert [child][..0] == [];
  }

  /** One more item walked: the visits so far grow by that item's visits, and
      a throw in any prefix is a throw of the whole `forEach`. */
  lemma EachStep<T>(visitors: Visitors<T>, items: seq<Value>, owner: Value, j: nat)
    requires forall h :: h in items ==> Size(h) < Size(owner)
    requires j < |items|
    ensures Run(visitors, VisitAll(items[..j + 1], owner)) ==
      Combine(Run(visitors, VisitAll(items[..j], owner)), Run(visitors, Visits(items[j], owner)))
    ensures Run(visitors, VisitAll(items[..j + 1], owner)).Abrupt? ==> Run(visitors, VisitAll(items, owner)).Abrupt?
  {
    EachAppend(visitors, items, owner, j);
    EachPrefixAbrupt(visitors, items, owner, j + 1);
  }

  lemma EachAppend<T>(visitors: Visitors<T>, items: seq<Value>, owner: Value, j: nat)
    requires forall h :: h in items ==> Size(h) < Size(owner)
    requires j < |items|
    ensures Run(visitors, VisitAll(items[..j + 1], owner)) ==
      Combine(Run(visitors, VisitAll(items[..j], owner)), Run(visitors, Visits(items[j], owner)))
  {
    assert items[..j + 1][..j] == items[..j];
    RunAppend(visitors, VisitAll(items[..j], owner), Visits(items[j], owner));
  }

  lemma EachPrefixAbrupt<T>(visitors: Visitors<T>, items: seq<Value>, owner: Value, n: nat)
    requires forall h :: h in items ==> Size(h) < Size(owner)
    requires n <= |items|
    ensures Run(visitors, VisitAll(items[..n], owner)).Abrupt? ==> Run(visitors, VisitAll(items, owner)).Abrupt?
  {
    assert items == items[..n] + items[n..];
    RunPrefixAbrupt(visitors, items[..n], items[n..], owner);
  }

  /** The values held by entry `i` of `v` are smaller than `v`. */
  lemma EntryHeldSmaller(v: Value, i: nat)
    requires i < |Entries(v)|
    ensures Size(Entries(v)[i].1) < Size(v)
    ensures forall h :: h in HeldBy(Entries(v)[i]) ==> Size(h) < Size(v)
  {
    EntrySmaller(v, i);
    var child := Entries(v)[i].1;
    if child.Arr? {
      forall j | 0 <= j < |child.items| ensures Size(child.items[j]) < Size(v) {
        ItemSmaller(child.items, j);
      }
    }
  }

  /** The values held by the first `i` entries of `v` are smaller than `v`. */
  lemma PrefixSmaller(v: Value, i: nat)
    requires i <= |Entries(v)|
    ensures forall h :: h in HeldFrom(Entries(v)[..i]) ==> Size(h) < Size(v)
  {
    forall k | 0 <= k < |Entries(v)[..i]| ensures Size(Entries(v)[..i][k].1) < Size(v) {
      EntrySmaller(v, k);
    }
    HeldFromSmaller(Entries(v)[..i], Size(v));
  }

  /** The visitors' result over the visits under the first `i` entries of
      `node`. */
  ghost function Walked<T>(visitors: Visitors<T>, node: Value, i: nat): Completion<seq<T>>
    requires i <= |Entries(node)|
  {
    PrefixSmaller(node, i);
    Run(visitors, VisitAll(HeldFrom(Entries(node)[..i]), node))
  }

  /** The visitors' result over the visits under entry `i` of `node`. */
  ghost function EntryRun<T>(visitors: Visitors<T>, node: Value, i: nat): Completion<seq<T>>
    requires i < |Entries(node)|
  {
    EntryHeldSmaller(node, i);
    Run(visitors, VisitAll(HeldBy(Entries(node)[i]), node))
  }

  /** Walking one more entry combines the walk so far with the run under it. */
  lemma WalkedNext<T>(visitors: Visitors<T>, node: Value, i: nat)
    requires i < |Entries(node)|
    ensures Walked(visitors, node, i + 1) == Combine(Walked(visitors, node, i), EntryRun(visitors, node, i))
  {
    var es := Entries(node);
    PrefixSmaller(node, i);
    EntryHeldSmaller(node, i);
    HeldFromSnoc(es, i);
    RunJoin(visitors, HeldFrom(es[..i]), HeldBy(es[i]), node);
  }

  /** The bookkeeping of one step of a loop that appends to `pushed`: a
      throw makes the combined run a throw, otherwise `pushed` grows by the
      combined output. */
  lemma CombineStep<T>(walked: Completion<seq<T>>, entry: Completion<seq<T>>, start: seq<T>, before: seq<T>, after: seq<T>, threw: bool)
    requires walked.Normal? && before == start + walked.value
    requires threw <==> entry.Abrupt?
    requires !threw ==> after == before + entry.value
    ensures threw ==> Combine(walked, entry).Abrupt?
    ensures !threw ==> Combine(walked, entry).Normal? && after == start + Combine(walked, entry).value
  {
    if !threw {
      AppendAssoc(start, walked.value, entry.value);
    }
  }

  lemma HeldFromSnoc(es: seq<(Key, Value)>, k: nat)
    requires k < |es|
    ensures HeldFrom(es[..k + 1]) == HeldFrom(es[..k]) + HeldBy(es[k])
  {
    assert es[..k + 1][..k] == es[..k];
  }

  /** Nothing is walked before the first entry. */
  lemma WalkedNone<T>(visitors: Visitors<T>, node: Value)
    ensures Walked(visitors, node, 0) == Normal([])
  {
    assert Entries(node)[..0] == [];
  }

  /** After the last entry, the walk is the run over everything `node` holds. */
  lemma WalkedAll<T>(visitors: Visitors<T>, node: Value)
    ensures Walked(visitors, node, |Entries(node)|) == Run(visitors, VisitAll(Held(node), node))
  {
    assert Entries(node)[..|Entries(node)|] == Entries(node);
  }

  /** A throw under the first `i` entries is a throw of the whole walk. */
  lemma WalkedAbrupt<T>(visitors: Visitors<T>, node: Value, i: nat)
    requires i <= |Entries(node)|
    ensures Walked(visitors, node, i).Abrupt? ==> Run(visitors, VisitAll(Held(node), node)).Abrupt?
  {
    var es := Entries(node);
    PrefixSmaller(node, i);
    HeldSplitsAt(node, i);
    RunPrefixAbrupt(visitors, HeldFrom(es[..i]), HeldFrom(es[i..]), node);
  }

  /** The values a node holds are those under its first `i` entries, then
      those under the rest. */
  lemma HeldSplitsAt(node: Value, i: nat)
    requires i <= |Entries(node)|
    ensures Held(node) == HeldFrom(Entries(node)[..i]) + HeldFrom(Entries(node)[i..])
  {
    var es := Entries(node);
    assert es == es[..i] + es[i..];
    HeldFromAppend(es[..i], es[i..]);
  }

  /** A throw while walking the first values is a throw of the whole walk. */
  lemma RunPrefixAbrupt<T>(visitors: Visitors<T>, a: seq<Value>, b: seq<Value>, owner: Value)
    requires forall h :: h in a + b ==> Size(h) < Size(owner)
    ensures Run(visitors, VisitAll(a, owner)).Abrupt? ==> Run(visitors, VisitAll(a + b, owner)).Abrupt?
  {
    RunJoin(visitors, a, b, owner);
  }

  /** Walking two lists of values one after the other. */
  lemma RunJoin<T>(visitors: Visitors<T>, a: seq<Value>, b: seq<Value>, owner: Value)
    requires forall h :: h in a ==> Size(h) < Size(owner)
    requires forall h :: h in b ==> Size(h) < Size(owner)
    ensures forall h :: h in a + b ==> Size(h) < Size(owner)
    ensures Run(visitors, VisitAll(a + b, owner)) == Combine(Run(visitors, VisitAll(a, owner)), Run(visitors, VisitAll(b, owner)))
  {
    VisitAllAppend(a, b, owner);
    RunAppend(visitors, VisitAll(a, owner), VisitAll(b, owner));
  }

  /** Walking a node is its own visit followed by the walk of its children. */
  lemma VisitsSplit<T>(visitors: Visitors<T>, node: Value, parent: Value)
    requires IsObject(node)
    ensures Run(visitors, Visits(node, parent)) ==
      Combine(Dispatch(visitors, Visit(node, parent)), Run(visitors, VisitAll(Held(node), node)))
  {
    RunAppend(visitors, [Visit(node, parent)], VisitAll(Held(node), node));
    RunSingle(visitors, Visit(node, parent));
  }
}
