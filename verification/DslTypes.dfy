// Filter trees of the JSON query language, the condition trees they stand for, and the
// operation stream a query is built as.

module DslTypes {
  import opened Wrappers

  datatype Op = AND | OR | NOT

  datatype Cond = EQ | GT | LT | GE | LE | SET | RANGE | ANY | EMPTY | ALLSET | LIKE | DWITHIN

  // Values are as the JSON has them; what matters is whether there is one.
  type Val = int

  // ---- filters: dsl.Filter ----

  // The texts of operators and conditions, sorted by what the code makes of them.
  datatype OpText = NoOp | Word(op: Op) | BadWord
  datatype CondText = NoCond | Named(c: Cond) | Unknown

  datatype AggType = Numeric | Count | CountCached | FacetOrDistinct | Other
  datatype Agg = Agg(ty: AggType, hasFields: bool)

  datatype SubQuery = SubQuery(
    ns: string, offset: int, limit: int, reqTotal: bool, aggs: seq<Agg>, select: seq<string>, filters: seq<Filter>)

  datatype Filter = Filter(
    op: OpText, field: string, cond: CondText, value: Option<Val>, joined: bool, subq: Option<SubQuery>,
    eqpos: seq<seq<string>>, filters: seq<Filter>, filtersNil: bool)

  // dsl.DSL, as far as it bears on faults
  datatype Dsl = Dsl(ns: string, offset: int, limit: int, reqTotal: bool, aggs: seq<Agg>, filters: seq<Filter>)

  datatype Fault =
    | EmptyNamespace | InvalidOp | NestedJoin | FieldAndFilters | SubqueryAndFilters | ValueAndFilters
    | EmptyFieldName | InvalidCond
    | SubNamespace | SubFieldAndValue | SubSelects | SubLimit | SubOffset | SubTotal | SubAggregations | SubSelect
    | SubAggType | SubAggCount | SubSelectAndAggs | SubNoSelect | AggFields | SubAnyField | SubAnyValue | SubNoValue
    | EqualMixed | EqualArguments | EqualUnknown | EqualNotAnd

  // ---- condition trees ----

  datatype Head = Head(ns: string, offset: int, limit: int, reqTotal: bool, aggs: seq<Agg>, select: seq<string>)

  datatype Test =
    | Compare(field: string, cond: Cond, value: Option<Val>)
    | OfField(field: string, cond: Cond, head: Head, body: Forest)
    | OfValue(head: Head, body: Forest, cond: Cond, value: Option<Val>)

  datatype Node = Leaf(op: Op, test: Test) | Group(op: Op, kids: Forest)

  // The entries between two brackets, and the equal positions asked for there.
  datatype Forest = Forest(nodes: seq<Node>, eqs: seq<seq<string>>)

  // ---- the stream ----

  datatype Tok =
    | TCompare(op: Op, field: string, cond: Cond, value: Option<Val>)
    | TOfField(op: Op, field: string, cond: Cond, head: Head, toks: seq<Tok>)
    | TOfValue(op: Op, head: Head, toks: seq<Tok>, cond: Cond, value: Option<Val>)
    | TOpen(op: Op)
    | TClose
    | TEqual(bracket: nat, fields: seq<string>)

  // Entries: conditions and brackets, at all depths.
  function Size(nodes: seq<Node>): nat
    decreases nodes
  {
    if nodes == [] then 0 else NodeSize(nodes[0]) + Size(nodes[1..])
  }

  function NodeSize(node: Node): nat
    decreases node
  {
    match node
    case Leaf(_, _) => 1
    case Group(_, kids) => 1 + ForestSize(kids)
  }

  function ForestSize(f: Forest): nat
    decreases f
  {
    Size(f.nodes)
  }

  // The stream of a tree whose first entry has number n and whose bracket is referred to
  // as b: 0 for none, otherwise one more than the bracket's own number.
  function Toks(f: Forest, n: nat, b: nat): seq<Tok>
    decreases f, 0
  {
    NodesToks(f.nodes, n) + EqToks(f.eqs, b)
  }

  function EqToks(eqs: seq<seq<string>>, b: nat): seq<Tok> {
    if eqs == [] then [] else [TEqual(b, eqs[0])] + EqToks(eqs[1..], b)
  }

  function NodesToks(nodes: seq<Node>, n: nat): seq<Tok>
    decreases nodes, 1
  {
    if nodes == [] then [] else NodeToks(nodes[0], n) + NodesToks(nodes[1..], n + NodeSize(nodes[0]))
  }

  function NodeToks(node: Node, n: nat): seq<Tok>
    decreases node, 0
  {
    match node
    case Leaf(op, test) => [TestTok(op, test)]
    case Group(op, kids) => [TOpen(op)] + Toks(kids, n + 1, n + 1) + [TClose]
  }

  function TestTok(op: Op, test: Test): Tok
    decreases test, 0
  {
    match test
    case Compare(field, cond, value) => TCompare(op, field, cond, value)
    case OfField(field, cond, head, body) => TOfField(op, field, cond, head, Toks(body, 0, 0))
    case OfValue(head, body, cond, value) => TOfValue(op, head, Toks(body, 0, 0), cond, value)
  }

  lemma {:induction false} SizeConcat(xs: seq<Node>, ys: seq<Node>)
    ensures Size(xs + ys) == Size(xs) + Size(ys)
    decreases |xs|
  {
    if xs == [] {
      assert xs + ys == ys;
    } else {
      assert (xs + ys)[1..] == xs[1..] + ys;
      SizeConcat(xs[1..], ys);
    }
  }

  lemma {:induction false} ToksConcat(xs: seq<Node>, ys: seq<Node>, n: nat)
    ensures NodesToks(xs + ys, n) == NodesToks(xs, n) + NodesToks(ys, n + Size(xs))
    decreases |xs|
  {
    if xs == [] {
      assert xs + ys == ys;
    } else {
      assert (xs + ys)[1..] == xs[1..] + ys;
      ToksConcat(xs[1..], ys, n + NodeSize(xs[0]));
    }
  }

  // ---- reading the stream back ----

  // A bracket that is open: its operator, the number it is referred to by, and what has
  // been read between it and here.
  datatype Frame = Frame(op: Op, bracket: nat, f: Forest)

  function AddNode(top: Frame, node: Node): Frame { top.(f := Forest(top.f.nodes + [node], top.f.eqs)) }

  function AddEq(top: Frame, fields: seq<string>): Frame { top.(f := Forest(top.f.nodes, top.f.eqs + [fields])) }

  // What a reader makes of a stream, n being the number of the next entry. An equal
  // position has to name the bracket it stands in.
  function Read(toks: seq<Tok>, top: Frame, below: seq<Frame>, n: nat): Option<Forest>
    decreases toks, 1
  {
    if toks == [] then (if below == [] then Some(top.f) else None)
    else if toks[0].TOpen? then Read(toks[1..], Frame(toks[0].op, n + 1, Forest([], [])), [top] + below, n + 1)
    else if toks[0].TClose? then
      if below == [] then None else Read(toks[1..], AddNode(below[0], Group(top.op, top.f)), below[1..], n)
    else if toks[0].TEqual? then
      if toks[0].bracket != top.bracket then None else Read(toks[1..], AddEq(top, toks[0].fields), below, n)
    else
      var test := ReadTest(toks[0]);
      if test.None? then None else Read(toks[1..], AddNode(top, Leaf(toks[0].op, test.value)), below, n + 1)
  }

  function ReadTest(t: Tok): Option<Test>
    requires !t.TOpen? && !t.TClose? && !t.TEqual?
    decreases t, 0
  {
    match t
    case TCompare(_, field, cond, value) => Some(Compare(field, cond, value))
    case TOfField(_, field, cond, head, toks) =>
      var f := ReadAll(toks);
      if f.Some? then Some(OfField(field, cond, head, f.value)) else None
    case TOfValue(_, head, toks, cond, value) =>
      var f := ReadAll(toks);
      if f.Some? then Some(OfValue(head, f.value, cond, value)) else None
  }

  function ReadAll(toks: seq<Tok>): Option<Forest>
    decreases toks, 2
  {
    Read(toks, Frame(AND, 0, Forest([], [])), [], 0)
  }

  // ---- the reader gets back the tree ----

  lemma ReadFirst(tok: Tok, rest: seq<Tok>, top: Frame, below: seq<Frame>, n: nat)
    requires !tok.TClose? && (tok.TEqual? ==> tok.bracket == top.bracket)
    requires tok.TOfField? || tok.TOfValue? || tok.TCompare? ==> ReadTest(tok).Some?
    ensures Read([tok] + rest, top, below, n) ==
      if tok.TOpen? then Read(rest, Frame(tok.op, n + 1, Forest([], [])), [top] + below, n + 1)
      else if tok.TEqual? then Read(rest, AddEq(top, tok.fields), below, n)
      else Read(rest, AddNode(top, Leaf(tok.op, ReadTest(tok).value)), below, n + 1)
  {
    assert ([tok] + rest)[1..] == rest;
  }

  lemma ReadClose(rest: seq<Tok>, top: Frame, parent: Frame, below: seq<Frame>, n: nat)
    ensures Read([TClose] + rest, top, [parent] + below, n) == Read(rest, AddNode(parent, Group(top.op, top.f)), below, n)
  {
    assert ([TClose] + rest)[1..] == rest && ([parent] + below)[1..] == below;
  }

  lemma {:induction false} ReadEqs(eqs: seq<seq<string>>, rest: seq<Tok>, top: Frame, below: seq<Frame>, n: nat)
    ensures Read(EqToks(eqs, top.bracket) + rest, top, below, n)
         == Read(rest, top.(f := Forest(top.f.nodes, top.f.eqs + eqs)), below, n)
    decreases |eqs|
  {
    if eqs == [] {
      assert EqToks(eqs, top.bracket) + rest == rest && top.f.eqs + eqs == top.f.eqs;
    } else {
      var tok := TEqual(top.bracket, eqs[0]);
      var more := EqToks(eqs[1..], top.bracket) + rest;
      assert EqToks(eqs, top.bracket) + rest == [tok] + more;
      ReadFirst(tok, more, top, below, n);
      ReadEqs(eqs[1..], rest, AddEq(top, eqs[0]), below, n);
      assert top.f.eqs + [eqs[0]] + eqs[1..] == top.f.eqs + eqs;
    }
  }

  lemma {:induction false} ReadForest(f: Forest, rest: seq<Tok>, op: Op, b: nat, below: seq<Frame>, n: nat)
    ensures Read(Toks(f, n, b) + rest, Frame(op, b, Forest([], [])), below, n)
         == Read(rest, Frame(op, b, f), below, n + ForestSize(f))
    decreases f, 0
  {
    var top := Frame(op, b, Forest([], []));
    ToksThen(f, rest, n, b);
    ReadNodes(f.nodes, EqToks(f.eqs, b) + rest, top, below, n);
    ReadEqs(f.eqs, rest, Frame(op, b, Forest([] + f.nodes, [])), below, n + Size(f.nodes));
    assert [] + f.nodes == f.nodes && [] + f.eqs == f.eqs;
  }

  lemma ToksThen(f: Forest, rest: seq<Tok>, n: nat, b: nat)
    ensures Toks(f, n, b) + rest == NodesToks(f.nodes, n) + (EqToks(f.eqs, b) + rest)
  {
    assert Toks(f, n, b) == NodesToks(f.nodes, n) + EqToks(f.eqs, b);
  }

  lemma {:induction false} ReadNodes(nodes: seq<Node>, rest: seq<Tok>, top: Frame, below: seq<Frame>, n: nat)
    ensures Read(NodesToks(nodes, n) + rest, top, below, n)
         == Read(rest, top.(f := Forest(top.f.nodes + nodes, top.f.eqs)), below, n + Size(nodes))
    decreases nodes, 1
  {
    if nodes == [] {
      assert NodesToks(nodes, n) + rest == rest && top.f.nodes + nodes == top.f.nodes;
    } else {
      var n' := n + NodeSize(nodes[0]);
      assert NodesToks(nodes, n) + rest == NodeToks(nodes[0], n) + (NodesToks(nodes[1..], n') + rest);
      ReadNode(nodes[0], NodesToks(nodes[1..], n') + rest, top, below, n);
      ReadNodes(nodes[1..], rest, AddNode(top, nodes[0]), below, n');
      assert top.f.nodes + [nodes[0]] + nodes[1..] == top.f.nodes + nodes;
    }
  }

  lemma {:induction false} ReadNode(node: Node, rest: seq<Tok>, top: Frame, below: seq<Frame>, n: nat)
    ensures Read(NodeToks(node, n) + rest, top, below, n) == Read(rest, AddNode(top, node), below, n + NodeSize(node))
    decreases node, 2
  {
    if node.Leaf? {
      ReadLeaf(node, rest, top, below, n);
    } else {
      ReadGroup(node, rest, top, below, n);
    }
  }

  lemma {:induction false} ReadLeaf(node: Node, rest: seq<Tok>, top: Frame, below: seq<Frame>, n: nat)
    requires node.Leaf?
    ensures Read(NodeToks(node, n) + rest, top, below, n) == Read(rest, AddNode(top, node), below, n + NodeSize(node))
    decreases node, 1
  {
    ReadTestTok(node.op, node.test);
    ReadFirst(TestTok(node.op, node.test), rest, top, below, n);
  }

  lemma {:induction false} ReadGroup(node: Node, rest: seq<Tok>, top: Frame, below: seq<Frame>, n: nat)
    requires node.Group?
    ensures Read(NodeToks(node, n) + rest, top, below, n) == Read(rest, AddNode(top, node), below, n + NodeSize(node))
    decreases node, 1
  {
    var op, kids := node.op, node.kids;
    var inner := Toks(kids, n + 1, n + 1);
    assert NodeToks(node, n) + rest == [TOpen(op)] + (inner + ([TClose] + rest));
    ReadFirst(TOpen(op), inner + ([TClose] + rest), top, below, n);
    ReadForest(kids, [TClose] + rest, op, n + 1, [top] + below, n + 1);
    ReadClose(rest, Frame(op, n + 1, kids), top, below, n + 1 + ForestSize(kids));
  }

  lemma {:induction false} ReadTestTok(op: Op, test: Test)
    ensures var t := TestTok(op, test); t.op == op && !t.TOpen? && ReadTest(t) == Some(test)
    decreases test, 0
  {
    match test
    case Compare(_, _, _) =>
    case OfField(_, _, _, body) => ReadBack(body);
    case OfValue(_, body, _, _) => ReadBack(body);
  }

  // The stream of a tree reads as that tree, equal positions at the brackets they were
  // asked for.
  lemma {:induction false} ReadBack(f: Forest)
    ensures ReadAll(Toks(f, 0, 0)) == Some(f)
    decreases f, 1
  {
    ReadForest(f, [], AND, 0, [], 0);
    assert Toks(f, 0, 0) + [] == Toks(f, 0, 0);
  }
}
