// Filters compiled to a query: handleFiltersDSL over the query builder.

module DslCompiler {
  import opened Wrappers
  import opened DslTypes

  // ---- what a filter tree means ----

  // Filters that only ask for equal positions.
  predicate AsksEqual(f: Filter) {
    !f.joined && !HasFilters(f) && f.subq.None? && f.eqpos != []
  }

  predicate HasFilters(f: Filter) { f.filters != [] }

  // A condition of its own: not skipped for want of a value.
  predicate IsCondition(f: Filter) {
    !f.joined && !HasFilters(f) && f.subq.None? && f.eqpos == []
    && f.cond.Named? && (f.value.Some? || f.cond.c == ANY || f.cond.c == EMPTY)
  }

  function OpOf(t: OpText): Op { if t.Word? then t.op else AND }

  // The fields with conditions here, and whether the last of them is joined by AND.
  function FieldsOf(filters: seq<Filter>): map<string, bool> {
    if filters == [] then map[]
    else
      var f := filters[|filters| - 1];
      var m := FieldsOf(filters[..|filters| - 1]);
      if IsCondition(f) then m[f.field := OpOf(f.op) == AND] else m
  }

  function EqualFilters(filters: seq<Filter>): seq<Filter> {
    if filters == [] then []
    else EqualFilters(filters[..|filters| - 1]) + (if AsksEqual(filters[|filters| - 1]) then [filters[|filters| - 1]] else [])
  }

  // Why a list of fields cannot have equal positions.
  function EqualFault(positions: seq<string>, fields: map<string, bool>): Option<Fault> {
    if |positions| < 2 then Some(EqualArguments) else FieldsFault(positions, fields)
  }

  function FieldsFault(positions: seq<string>, fields: map<string, bool>): Option<Fault> {
    if positions == [] then None
    else if positions[0] !in fields then Some(EqualUnknown)
    else if !fields[positions[0]] then Some(EqualNotAnd)
    else FieldsFault(positions[1..], fields)
  }

  function EqualsFault(eqpos: seq<seq<string>>, fields: map<string, bool>): Option<Fault> {
    if eqpos == [] then None
    else if EqualFault(eqpos[0], fields).Some? then EqualFault(eqpos[0], fields)
    else EqualsFault(eqpos[1..], fields)
  }

  predicate Mixed(f: Filter) {
    f.cond != NoCond || f.op != NoOp || f.field != "" || f.value.Some? || f.filters != [] || !f.filtersNil || f.joined || f.subq.Some?
  }

  // The equal positions of the filters, or the first thing wrong with them.
  function WantEquals(filters: seq<Filter>, fields: map<string, bool>): Result<seq<seq<string>>, Fault> {
    if filters == [] then Success([])
    else if Mixed(filters[0]) then Failure(EqualMixed)
    else if EqualsFault(filters[0].eqpos, fields).Some? then Failure(EqualsFault(filters[0].eqpos, fields).value)
    else
      var rest := WantEquals(filters[1..], fields);
      if rest.Success? then Success(filters[0].eqpos + rest.value) else rest
  }

  // The tree of a list of filters: the filters without those that are skipped, and with
  // equal positions where they are asked for; or the first fault.
  function Want(filters: seq<Filter>): Result<Forest, Fault>
    decreases filters, 3
  {
    var nodes := WantNodes(filters);
    if nodes.Failure? then Failure(nodes.error)
    else
      var eqs := WantEquals(EqualFilters(filters), FieldsOf(filters));
      if eqs.Failure? then Failure(eqs.error) else Success(Forest(nodes.value, eqs.value))
  }

  function WantNodes(filters: seq<Filter>): Result<seq<Node>, Fault>
    decreases filters, 2
  {
    if filters == [] then Success([])
    else
      var first := WantOne(filters[0]);
      if first.Failure? then first
      else
        var rest := WantNodes(filters[1..]);
        if rest.Success? then Success(first.value + rest.value) else rest
  }

  function WantOne(f: Filter): Result<seq<Node>, Fault>
    decreases f, 1
  {
    if f.op.BadWord? then Failure(InvalidOp)
    else if f.joined then Failure(NestedJoin)
    else if HasFilters(f) then WantGroup(f, f.filters)
    else if f.subq.Some? then WantSubquery(f, f.subq)
    else if f.eqpos != [] then Success([])
    else if f.field == "" then Failure(EmptyFieldName)
    else if !f.cond.Named? then Failure(InvalidCond)
    else if IsCondition(f) then Success([Leaf(OpOf(f.op), Compare(f.field, f.cond.c, f.value))])
    else Success([])
  }

  function WantGroup(f: Filter, filters: seq<Filter>): Result<seq<Node>, Fault>
    decreases filters, 4
  {
    if f.field != "" || f.cond != NoCond then Failure(FieldAndFilters)
    else if f.subq.Some? then Failure(SubqueryAndFilters)
    else if f.value.Some? then Failure(ValueAndFilters)
    else
      var kids := Want(filters);
      if kids.Success? then Success([Group(OpOf(f.op), kids.value)]) else Failure(kids.error)
  }

  function WantSubquery(f: Filter, subq: Option<SubQuery>): Result<seq<Node>, Fault>
    requires subq.Some?
    decreases subq, 1
  {
    WantSub(f, subq.value)
  }

  predicate ForExistence(f: Filter) { f.cond == Named(EMPTY) || f.cond == Named(ANY) }

  // Checks that come before the subquery is built.
  function CheckFault(f: Filter, s: SubQuery): Option<Fault> {
    if s.ns == "" then Some(SubNamespace)
    else if f.field != "" && f.value.Some? then Some(SubFieldAndValue)
    else if !f.cond.Named? then Some(InvalidCond)
    else if |s.select| > 1 then Some(SubSelects)
    else if ForExistence(f) then
      if s.limit > 0 then Some(SubLimit)
      else if s.offset > 0 then Some(SubOffset)
      else if s.reqTotal then Some(SubTotal)
      else if |s.aggs| > 0 then Some(SubAggregations)
      else if |s.select| > 0 then Some(SubSelect)
      else None
    else if exists i :: 0 <= i < |s.aggs| && !Countable(s.aggs[i]) then Some(SubAggType)
    else if Totals(s) > 1 then Some(SubAggCount)
    else if Totals(s) == 1 && |s.select| > 0 then Some(SubSelectAndAggs)
    else if Totals(s) == 0 && |s.select| != 1 then Some(SubNoSelect)
    else None
  }

  function Totals(s: SubQuery): nat { |s.aggs| + (if s.reqTotal then 1 else 0) }

  // And those of building it.
  function SubqueryFault(f: Filter, s: SubQuery): Option<Fault> {
    if CheckFault(f, s).Some? then CheckFault(f, s) else AggsFault(s.aggs)
  }

  // The aggregations a subquery may have, as the check before building it sees them.
  predicate Countable(a: Agg) { a.ty.Numeric? || a.ty.Count? || a.ty.CountCached? }

  // addAggregationsDSL; it does not know count_cached
  function AggsFault(aggs: seq<Agg>): Option<Fault> {
    if aggs == [] then None
    else if !aggs[0].hasFields then Some(AggFields)
    else if aggs[0].ty.CountCached? || aggs[0].ty.Other? then Some(SubAggType)
    else AggsFault(aggs[1..])
  }

  lemma {:induction false} AggsAccepted(aggs: seq<Agg>)
    ensures AggsFault(aggs).None? <==>
      forall i :: 0 <= i < |aggs| ==> aggs[i].hasFields && !aggs[i].ty.CountCached? && !aggs[i].ty.Other?
  {
    if aggs != [] {
      AggsAccepted(aggs[1..]);
      forall i | 0 < i < |aggs| ensures aggs[i] == aggs[1..][i - 1] {
      }
    }
  }

  // What all the checks come to: a subquery asked only for existence has nothing but
  // filters, any other yields exactly one column, which is a selected field, the total,
  // or one numeric or count aggregation. In particular count_cached, which the first
  // check lets through and the builder does not know, is never accepted.
  lemma SubqueryAccepted(f: Filter, s: SubQuery)
    ensures SubqueryFault(f, s).None? <==>
      && s.ns != "" && !(f.field != "" && f.value.Some?) && f.cond.Named?
      && if ForExistence(f) then s.limit <= 0 && s.offset <= 0 && !s.reqTotal && s.aggs == [] && s.select == []
         else
           && |s.select| + Totals(s) == 1
           && forall i :: 0 <= i < |s.aggs| ==> s.aggs[i].hasFields && (s.aggs[i].ty.Numeric? || s.aggs[i].ty.Count?)
  {
    AggsAccepted(s.aggs);
  }

  function HeadOf(s: SubQuery): Head {
    Head(s.ns, s.offset, if s.limit > 0 then s.limit else 0, s.reqTotal, s.aggs, s.select)
  }

  // Checks that come after it.
  function TargetFault(f: Filter): Option<Fault>
    requires f.cond.Named?
  {
    if f.field != "" then (if ForExistence(f) then Some(SubAnyField) else None)
    else if ForExistence(f) && f.value.Some? then Some(SubAnyValue)
    else if !ForExistence(f) && f.value.None? then Some(SubNoValue)
    else None
  }

  function WantSub(f: Filter, s: SubQuery): Result<seq<Node>, Fault>
    decreases s, 0
  {
    if SubqueryFault(f, s).Some? then Failure(SubqueryFault(f, s).value)
    else
      var body := Want(s.filters);
      if body.Failure? then Failure(body.error)
      else if TargetFault(f).Some? then Failure(TargetFault(f).value)
      else Success([SubNode(f, HeadOf(s), body.value)])
  }

  function SubNode(f: Filter, head: Head, body: Forest): Node
    requires f.cond.Named?
  {
    Leaf(OpOf(f.op),
      if f.field != "" then OfField(f.field, f.cond.c, head, body) else OfValue(head, body, f.cond.c, f.value))
  }

  // ---- the builder ----

  class Query {
    const head: Head
    var ser: seq<Tok>
    var nextOp: Op
    var whereEntriesCount: nat
    var openedBrackets: seq<nat>

    constructor (head: Head)
      ensures this.head == head && ser == [] && nextOp == AND && whereEntriesCount == 0 && openedBrackets == []
    {
      this.head, ser, nextOp, whereEntriesCount, openedBrackets := head, [], AND, 0, [];
    }

    // How an equal position here refers to its bracket.
    function Bracket(): nat
      reads this
    {
      if openedBrackets == [] then 0 else openedBrackets[|openedBrackets| - 1] + 1
    }

    method SetOp(op: Op)
      modifies this`nextOp
      ensures nextOp == op
    {
      nextOp := op;
    }

    method Put(tok: Tok)
      modifies this`ser, this`whereEntriesCount, this`nextOp
      ensures ser == old(ser) + [tok] && whereEntriesCount == old(whereEntriesCount) + 1 && nextOp == AND
    {
      ser := ser + [tok];
      whereEntriesCount := whereEntriesCount + 1;
      nextOp := AND;
    }

    method Where(field: string, cond: Cond, value: Option<Val>)
      modifies this`ser, this`whereEntriesCount, this`nextOp
      ensures ser == old(ser) + [TCompare(old(nextOp), field, cond, value)]
      ensures whereEntriesCount == old(whereEntriesCount) + 1 && nextOp == AND
    {
      Put(TCompare(nextOp, field, cond, value));
    }

    // Where with a query for its keys
    method WhereSub(field: string, cond: Cond, sub: Query)
      modifies this`ser, this`whereEntriesCount, this`nextOp
      ensures ser == old(ser) + [TOfField(old(nextOp), field, cond, sub.head, old(sub.ser))]
      ensures whereEntriesCount == old(whereEntriesCount) + 1 && nextOp == AND
    {
      Put(TOfField(nextOp, field, cond, sub.head, sub.ser));
    }

    method WhereQuery(sub: Query, cond: Cond, value: Option<Val>)
      modifies this`ser, this`whereEntriesCount, this`nextOp
      ensures ser == old(ser) + [TOfValue(old(nextOp), sub.head, old(sub.ser), cond, value)]
      ensures whereEntriesCount == old(whereEntriesCount) + 1 && nextOp == AND
    {
      Put(TOfValue(nextOp, sub.head, sub.ser, cond, value));
    }

    method OpenBracket()
      modifies this
      ensures ser == old(ser) + [TOpen(old(nextOp))] && nextOp == AND
      ensures openedBrackets == old(openedBrackets) + [old(whereEntriesCount)]
      ensures whereEntriesCount == old(whereEntriesCount) + 1
    {
      ser := ser + [TOpen(nextOp)];
      nextOp := AND;
      openedBrackets := openedBrackets + [whereEntriesCount];
      whereEntriesCount := whereEntriesCount + 1;
    }

    // It panics unless the last operator has been used and a bracket is open.
    method CloseBracket()
      requires nextOp == AND && openedBrackets != []
      modifies this`ser, this`openedBrackets
      ensures ser == old(ser) + [TClose] && openedBrackets == old(openedBrackets)[..|old(openedBrackets)| - 1]
    {
      ser := ser + [TClose];
      openedBrackets := openedBrackets[..|openedBrackets| - 1];
    }

    method EqualPosition(fields: seq<string>)
      modifies this`ser
      ensures ser == old(ser) + [TEqual(Bracket(), fields)]
    {
      ser := ser + [TEqual(Bracket(), fields)];
    }
  }

  // ---- handleFiltersDSL ----

  // Filters without joins, which are not part of this model.
  predicate JoinFree(filters: seq<Filter>)
    decreases filters, 1
  {
    filters != [] ==> JoinFreeOne(filters[0]) && JoinFree(filters[1..])
  }

  predicate JoinFreeOne(f: Filter)
    decreases f, 0
  {
    !f.joined && JoinFree(f.filters)
  }

  // What the filters of one bracket add to a query: the stream of the forest they mean.
  twostate predicate Compiled(q: Query, f: Forest)
    reads q
  {
    && q.ser == old(q.ser) + Toks(f, old(q.whereEntriesCount), old(q.Bracket()))
    && q.whereEntriesCount == old(q.whereEntriesCount) + ForestSize(f)
    && q.nextOp == AND && q.openedBrackets == old(q.openedBrackets)
  }

  // The same of a list of entries.
  twostate predicate Added(q: Query, nodes: seq<Node>)
    reads q
  {
    && q.ser == old(q.ser) + NodesToks(nodes, old(q.whereEntriesCount))
    && q.whereEntriesCount == old(q.whereEntriesCount) + Size(nodes)
    && q.openedBrackets == old(q.openedBrackets)
  }

  lemma {:induction false} NodesSplit(filters: seq<Filter>, i: nat)
    requires i < |filters|
    ensures WantNodes(filters[i..]) ==
      (var first := WantOne(filters[i]); if first.Failure? then first else Behind(first.value, WantNodes(filters[i + 1..])))
  {
    assert filters[i..][0] == filters[i] && filters[i..][1..] == filters[i + 1..];
  }

  function Behind(xs: seq<Node>, r: Result<seq<Node>, Fault>): Result<seq<Node>, Fault> {
    if r.Success? then Success(xs + r.value) else r
  }

  lemma {:induction false} JoinFreeAt(filters: seq<Filter>, i: nat)
    requires JoinFree(filters) && i < |filters|
    ensures JoinFreeOne(filters[i])
  {
    if i > 0 {
      JoinFreeAt(filters[1..], i - 1);
    }
  }

  // Entries added after entries.
  lemma AddedMore(s0: seq<Tok>, n0: nat, xs: seq<Node>, ys: seq<Node>)
    ensures s0 + NodesToks(xs, n0) + NodesToks(ys, n0 + Size(xs)) == s0 + NodesToks(xs + ys, n0)
    ensures n0 + Size(xs) + Size(ys) == n0 + Size(xs + ys)
  {
    ToksConcat(xs, ys, n0);
    SizeConcat(xs, ys);
    Three(s0, NodesToks(xs, n0), NodesToks(ys, n0 + Size(xs)));
  }

  ghost predicate AnyMixed(filters: seq<Filter>) { exists j :: 0 <= j < |filters| && Mixed(filters[j]) }

  lemma LastMixed(filters: seq<Filter>, f: Filter)
    ensures f.op != NoOp ==> AnyMixed(filters + [f])
  {
    assert (filters + [f])[|filters|] == f;
  }

  lemma OneMore(filters: seq<Filter>, i: nat)
    requires i < |filters|
    ensures EqualFilters(filters[..i + 1]) == EqualFilters(filters[..i]) + (if AsksEqual(filters[i]) then [filters[i]] else [])
    ensures FieldsOf(filters[..i + 1]) ==
      if IsCondition(filters[i]) then FieldsOf(filters[..i])[filters[i].field := OpOf(filters[i].op) == AND] else FieldsOf(filters[..i])
  {
    assert filters[..i + 1][..i] == filters[..i];
  }

  // An equal-positions filter with anything else in it is refused.
  lemma {:induction false} MixedFails(filters: seq<Filter>, fields: map<string, bool>, j: nat)
    requires j < |filters| && Mixed(filters[j])
    ensures WantEquals(filters, fields).Failure?
  {
    if j > 0 {
      MixedFails(filters[1..], fields, j - 1);
    }
  }

  method HandleFilters(filters: seq<Filter>, nested: bool, q: Query) returns (fault: Option<Fault>)
    requires (nested || JoinFree(filters)) && q.nextOp == AND
    modifies q
    ensures fault.None? <==> Want(filters).Success?
    ensures fault.Some? ==> Want(filters) == Failure(fault.value)
    ensures fault.None? ==> Compiled(q, Want(filters).value)
    decreases filters, 4
  {
    ghost var n, s := q.whereEntriesCount, q.ser;
    var equalFilters, fields;
    fault, equalFilters, fields := EachFilter(filters, nested, q);
    if fault.Some? {
      return;
    }
    if q.nextOp != AND {
      ghost var j :| 0 <= j < |equalFilters| && Mixed(equalFilters[j]);
      MixedFails(equalFilters, fields, j);
    }
    fault := ProcessEqualPositions(q, equalFilters, fields);
    if fault.None? {
      Three(s, NodesToks(WantNodes(filters).value, n), EqToks(WantEquals(equalFilters, fields).value, q.Bracket()));
    }
  }

  // The loop over the filters of one bracket.
  method EachFilter(filters: seq<Filter>, nested: bool, q: Query)
    returns (fault: Option<Fault>, equalFilters: seq<Filter>, fields: map<string, bool>)
    requires (nested || JoinFree(filters)) && q.nextOp == AND
    modifies q
    ensures match fault case None => WantNodes(filters).Success? case Some(e) => WantNodes(filters) == Failure(e)
    ensures fault.None? ==> Added(q, WantNodes(filters).value)
    ensures fault.None? ==> equalFilters == EqualFilters(filters) && fields == FieldsOf(filters)
    ensures fault.None? ==> q.nextOp == AND || AnyMixed(equalFilters)
    decreases filters, 3
  {
    ghost var n, s, b := q.whereEntriesCount, q.ser, q.openedBrackets;
    ghost var done: seq<Node> := [];
    fault, equalFilters, fields := None, [], map[];
    var i := 0;
    LoopStart(filters, s, n);
    while i < |filters|
      invariant fault.None? && i <= |filters|
      invariant Looped(filters, i, done, s, n, q.ser, q.whereEntriesCount, equalFilters, fields)
      invariant q.openedBrackets == b && (q.nextOp == AND || AnyMixed(equalFilters))
    {
      LoopStep(filters, i, done, s, n, q.ser, q.whereEntriesCount, equalFilters, fields);
      if !nested { JoinFreeAt(filters, i); }
      fault, equalFilters, fields := OneFilter(filters[i], nested, q, equalFilters, fields);
      if fault.Some? {
        return;
      }
      done := done + WantOne(filters[i]).value;
      i := i + 1;
    }
    LoopEnd(filters, done, s, n, q.ser, q.whereEntriesCount, equalFilters, fields);
  }

  // How far the loop is: the filters before i are compiled to `done`.
  ghost predicate Looped(filters: seq<Filter>, i: nat, done: seq<Node>, s: seq<Tok>, n: nat,
                         ser: seq<Tok>, count: nat, equalFilters: seq<Filter>, fields: map<string, bool>)
    requires i <= |filters|
  {
    && WantNodes(filters) == Behind(done, WantNodes(filters[i..]))
    && ser == s + NodesToks(done, n) && count == n + Size(done)
    && equalFilters == EqualFilters(filters[..i]) && fields == FieldsOf(filters[..i])
  }

  lemma LoopStart(filters: seq<Filter>, s: seq<Tok>, n: nat)
    ensures Looped(filters, 0, [], s, n, s, n, [], map[])
  {
    var all := WantNodes(filters);
    assert filters[0..] == filters && (all.Success? ==> [] + all.value == all.value) && s + [] == s;
  }

  lemma LoopEnd(filters: seq<Filter>, done: seq<Node>, s: seq<Tok>, n: nat,
                ser: seq<Tok>, count: nat, equalFilters: seq<Filter>, fields: map<string, bool>)
    requires Looped(filters, |filters|, done, s, n, ser, count, equalFilters, fields)
    ensures WantNodes(filters) == Success(done) && ser == s + NodesToks(done, n) && count == n + Size(done)
    ensures equalFilters == EqualFilters(filters) && fields == FieldsOf(filters)
  {
    assert filters[..|filters|] == filters && done + [] == done;
  }

  lemma LoopStep(filters: seq<Filter>, i: nat, done: seq<Node>, s: seq<Tok>, n: nat,
                 ser: seq<Tok>, count: nat, equalFilters: seq<Filter>, fields: map<string, bool>)
    requires i < |filters| && Looped(filters, i, done, s, n, ser, count, equalFilters, fields)
    ensures var f, one := filters[i], WantOne(filters[i]);
      if one.Failure? then WantNodes(filters) == Failure(one.error)
      else
        Looped(filters, i + 1, done + one.value, s, n, ser + NodesToks(one.value, count), count + Size(one.value),
               equalFilters + (if AsksEqual(f) then [f] else []),
               if IsCondition(f) then fields[f.field := OpOf(f.op) == AND] else fields)
  {
    NodesSplit(filters, i);
    OneMore(filters, i);
    if WantOne(filters[i]).Success? {
      AddedMore(s, n, done, WantOne(filters[i]).value);
      BehindMore(done, WantOne(filters[i]).value, WantNodes(filters[i + 1..]));
    }
  }

  // One filter, and what it brings to the equal positions of its bracket.
  method OneFilter(f: Filter, nested: bool, q: Query, eqs: seq<Filter>, known: map<string, bool>)
    returns (fault: Option<Fault>, equalFilters: seq<Filter>, fields: map<string, bool>)
    requires nested || JoinFreeOne(f)
    modifies q
    ensures fault.None? <==> WantOne(f).Success?
    ensures fault.Some? ==> WantOne(f) == Failure(fault.value)
    ensures fault.None? ==> Added(q, WantOne(f).value)
    ensures equalFilters == eqs + (if AsksEqual(f) then [f] else [])
    ensures fields == if IsCondition(f) then known[f.field := OpOf(f.op) == AND] else known
    ensures fault.None? ==> q.nextOp == AND || AnyMixed(equalFilters)
    decreases f, 3
  {
    fault := HandleFilter(f, nested, q);
    LastMixed(eqs, f);
    equalFilters := if AsksEqual(f) then eqs + [f] else eqs;
    fields := if IsCondition(f) then known[f.field := OpOf(f.op) == AND] else known;
  }

  lemma Three(a: seq<Tok>, b: seq<Tok>, c: seq<Tok>)
    ensures a + b + c == a + (b + c)
  {
  }

  lemma BehindMore(xs: seq<Node>, ys: seq<Node>, r: Result<seq<Node>, Fault>)
    ensures Behind(xs, Behind(ys, r)) == Behind(xs + ys, r)
  {
    if r.Success? {
      assert xs + (ys + r.value) == xs + ys + r.value;
    }
  }

  // One filter of the loop.
  method HandleFilter(f: Filter, nested: bool, q: Query) returns (fault: Option<Fault>)
    requires nested || JoinFreeOne(f)
    modifies q
    ensures fault.None? <==> WantOne(f).Success?
    ensures fault.Some? ==> WantOne(f) == Failure(fault.value)
    ensures fault.None? ==> Added(q, WantOne(f).value)
    ensures fault.None? ==> q.nextOp == AND || (AsksEqual(f) && f.op != NoOp)
    decreases f, 2
  {
    if f.op.BadWord? {
      return Some(InvalidOp);
    }
    q.SetOp(OpOf(f.op));
    if f.joined {
      return Some(NestedJoin);
    } else if HasFilters(f) {
      fault := HandleGroup(f, nested, q);
    } else if f.subq.Some? {
      fault := AddSubquery(f, f.subq.value, q);
    } else if f.eqpos != [] {
      fault := None;
      assert q.ser + [] == q.ser;
    } else {
      fault := AddFilter(f, q);
    }
  }

  method HandleGroup(f: Filter, nested: bool, q: Query) returns (fault: Option<Fault>)
    requires (nested || JoinFreeOne(f)) && q.nextOp == OpOf(f.op)
    modifies q
    ensures fault.None? <==> WantGroup(f, f.filters).Success?
    ensures fault.Some? ==> WantGroup(f, f.filters) == Failure(fault.value)
    ensures fault.None? ==> Added(q, WantGroup(f, f.filters).value) && q.nextOp == AND
    decreases f, 1
  {
    if f.field != "" || f.cond != NoCond {
      return Some(FieldAndFilters);
    } else if f.subq.Some? {
      return Some(SubqueryAndFilters);
    } else if f.value.Some? {
      return Some(ValueAndFilters);
    }
    ghost var n, s := q.whereEntriesCount, q.ser;
    q.OpenBracket();
    fault := HandleFilters(f.filters, nested, q);
    if fault.None? {
      q.CloseBracket();
      GroupToks(s, OpOf(f.op), Want(f.filters).value, n);
    }
  }

  lemma OneNode(node: Node, n: nat)
    ensures NodesToks([node], n) == NodeToks(node, n) && Size([node]) == NodeSize(node)
  {
    assert [node][1..] == [];
  }

  lemma GroupToks(s: seq<Tok>, op: Op, kids: Forest, n: nat)
    ensures s + [TOpen(op)] + Toks(kids, n + 1, n + 1) + [TClose] == s + NodesToks([Group(op, kids)], n)
    ensures Size([Group(op, kids)]) == 1 + ForestSize(kids)
  {
    OneNode(Group(op, kids), n);
    assert s + [TOpen(op)] + Toks(kids, n + 1, n + 1) + [TClose] == s + ([TOpen(op)] + Toks(kids, n + 1, n + 1) + [TClose]);
  }

  // addFilterDSL
  method AddFilter(f: Filter, q: Query) returns (fault: Option<Fault>)
    requires !f.joined && !HasFilters(f) && f.subq.None? && f.eqpos == [] && !f.op.BadWord? && q.nextOp == OpOf(f.op)
    modifies q
    ensures fault.None? <==> WantOne(f).Success?
    ensures fault.Some? ==> WantOne(f) == Failure(fault.value)
    ensures fault.None? ==> Added(q, WantOne(f).value) && q.nextOp == AND
  {
    if f.field == "" {
      return Some(EmptyFieldName);
    }
    if !f.cond.Named? {
      return Some(InvalidCond);
    }
    fault := None;
    if f.value.Some? || f.cond.c == ANY || f.cond.c == EMPTY {
      OneNode(Leaf(OpOf(f.op), Compare(f.field, f.cond.c, f.value)), q.whereEntriesCount);
      q.Where(f.field, f.cond.c, f.value);
    } else {
      q.SetOp(AND);
      assert q.ser + [] == q.ser;
    }
  }

  // addSubqueryDSL
  method AddSubquery(f: Filter, s: SubQuery, q: Query) returns (fault: Option<Fault>)
    requires q.nextOp == OpOf(f.op)
    modifies q
    ensures fault.None? <==> WantSub(f, s).Success?
    ensures fault.Some? ==> WantSub(f, s) == Failure(fault.value)
    ensures fault.None? ==> Added(q, WantSub(f, s).value) && q.nextOp == AND
    decreases s, 2
  {
    fault := CheckSubquery(f, s);
    if fault.Some? {
      return;
    }
    var sq;
    sq, fault := BuildSubquery(s);
    if fault.Some? {
      return;
    }
    fault := HandleFilters(s.filters, true, sq);
    if fault.Some? {
      return;
    }
    ghost var body := Want(s.filters).value;
    assert sq.ser == Toks(body, 0, 0);
    fault := PutSubquery(f, sq, q, HeadOf(s), body);
  }

  method CheckSubquery(f: Filter, s: SubQuery) returns (fault: Option<Fault>)
    ensures fault == CheckFault(f, s)
  {
    if s.ns == "" {
      return Some(SubNamespace);
    }
    if f.field != "" && f.value.Some? {
      return Some(SubFieldAndValue);
    }
    if !f.cond.Named? {
      return Some(InvalidCond);
    }
    if |s.select| > 1 {
      return Some(SubSelects);
    }
    if f.cond.c == EMPTY || f.cond.c == ANY {
      fault := CheckBare(s, f);
    } else {
      fault := CheckColumn(s, f);
    }
  }

  method CheckBare(s: SubQuery, ghost f: Filter) returns (fault: Option<Fault>)
    requires s.ns != "" && !(f.field != "" && f.value.Some?) && |s.select| <= 1 && ForExistence(f)
    ensures fault == CheckFault(f, s)
  {
    if s.limit > 0 {
      return Some(SubLimit);
    }
    if s.offset > 0 {
      return Some(SubOffset);
    }
    if s.reqTotal {
      return Some(SubTotal);
    }
    if |s.aggs| > 0 {
      return Some(SubAggregations);
    }
    if |s.select| > 0 {
      return Some(SubSelect);
    }
    fault := None;
  }

  method CheckColumn(s: SubQuery, ghost f: Filter) returns (fault: Option<Fault>)
    requires s.ns != "" && !(f.field != "" && f.value.Some?) && |s.select| <= 1 && f.cond.Named? && !ForExistence(f)
    ensures fault == CheckFault(f, s)
  {
    for i := 0 to |s.aggs|
      invariant forall k :: 0 <= k < i ==> Countable(s.aggs[k])
    {
      match s.aggs[i].ty {
        case Numeric =>
        case Count =>
        case CountCached =>
        case _ => return Some(SubAggType);
      }
    }
    var totalAggs := |s.aggs|;
    if s.reqTotal {
      totalAggs := totalAggs + 1;
    }
    if totalAggs > 1 {
      return Some(SubAggCount);
    }
    if totalAggs == 1 && |s.select| > 0 {
      return Some(SubSelectAndAggs);
    }
    if totalAggs == 0 && |s.select| != 1 {
      return Some(SubNoSelect);
    }
    fault := None;
  }

  method BuildSubquery(s: SubQuery) returns (sq: Query, fault: Option<Fault>)
    ensures fault == AggsFault(s.aggs) && fresh(sq)
    ensures fault.None? ==> sq.head == HeadOf(s) && sq.ser == [] && sq.nextOp == AND && sq.whereEntriesCount == 0 && sq.openedBrackets == []
  {
    var head := Head(s.ns, s.offset, 0, false, [], s.select);
    if s.limit > 0 {
      head := head.(limit := s.limit);
    }
    if s.reqTotal {
      head := head.(reqTotal := true);
    }
    head, fault := AddAggregations(head, s.aggs);
    sq := new Query(head);
  }

  // addAggregationsDSL
  method AddAggregations(head: Head, aggs: seq<Agg>) returns (more: Head, fault: Option<Fault>)
    ensures fault == AggsFault(aggs)
    ensures fault.None? ==> more == head.(aggs := head.aggs + aggs)
  {
    more := head;
    var i := 0;
    while i < |aggs|
      invariant i <= |aggs| && AggsFault(aggs) == AggsFault(aggs[i..])
      invariant more == head.(aggs := head.aggs + aggs[..i])
    {
      assert aggs[i..][0] == aggs[i] && aggs[i..][1..] == aggs[i + 1..];
      if !aggs[i].hasFields {
        return more, Some(AggFields);
      }
      match aggs[i].ty {
        case CountCached => return more, Some(SubAggType);
        case Other => return more, Some(SubAggType);
        case _ => more := more.(aggs := more.aggs + [aggs[i]]);
      }
      assert aggs[..i + 1] == aggs[..i] + [aggs[i]];
      i := i + 1;
    }
    fault := None;
    assert aggs[..|aggs|] == aggs;
  }

  // The finished subquery goes in as a condition, unless there is no place for it.
  method PutSubquery(f: Filter, sq: Query, q: Query, ghost head: Head, ghost body: Forest) returns (fault: Option<Fault>)
    requires f.cond.Named? && q.nextOp == OpOf(f.op) && sq.head == head && sq.ser == Toks(body, 0, 0)
    modifies q
    ensures fault == TargetFault(f)
    ensures fault.None? ==> Added(q, [SubNode(f, head, body)]) && q.nextOp == AND
  {
    OneNode(SubNode(f, head, body), q.whereEntriesCount);
    if f.field != "" {
      if f.cond.c == EMPTY || f.cond.c == ANY {
        return Some(SubAnyField);
      }
      q.WhereSub(f.field, f.cond.c, sq);
    } else {
      if (f.cond.c == EMPTY || f.cond.c == ANY) && f.value.Some? {
        return Some(SubAnyValue);
      }
      if f.cond.c != EMPTY && f.cond.c != ANY && f.value.None? {
        return Some(SubNoValue);
      }
      q.WhereQuery(sq, f.cond.c, f.value);
    }
    fault := None;
  }

  method ProcessEqualPositions(q: Query, filters: seq<Filter>, fields: map<string, bool>) returns (fault: Option<Fault>)
    modifies q`ser
    ensures fault.None? <==> WantEquals(filters, fields).Success?
    ensures fault.Some? ==> WantEquals(filters, fields) == Failure(fault.value)
    ensures fault.None? ==> q.ser == old(q.ser) + EqToks(WantEquals(filters, fields).value, q.Bracket())
  {
    ghost var s, all := q.ser, WantEquals(filters, fields);
    ghost var done: seq<seq<string>> := [];
    assert filters[0..] == filters && (all.Success? ==> [] + all.value == all.value);
    fault := None;
    var i := 0;
    while i < |filters|
      invariant i <= |filters| && fault.None?
      invariant all == EqBehind(done, WantEquals(filters[i..], fields))
      invariant q.ser == s + EqToks(done, q.Bracket())
    {
      assert filters[i..][0] == filters[i] && filters[i..][1..] == filters[i + 1..];
      if Mixed(filters[i]) {
        return Some(EqualMixed);
      }
      fault := EqualPositions(q, filters[i].eqpos, fields);
      if fault.Some? {
        return;
      }
      EqToksConcat(done, filters[i].eqpos, q.Bracket());
      Three(s, EqToks(done, q.Bracket()), EqToks(filters[i].eqpos, q.Bracket()));
      EqBehindMore(done, filters[i].eqpos, WantEquals(filters[i + 1..], fields));
      done := done + filters[i].eqpos;
      i := i + 1;
    }
    assert done + [] == done;
  }

  function EqBehind(xs: seq<seq<string>>, r: Result<seq<seq<string>>, Fault>): Result<seq<seq<string>>, Fault> {
    if r.Success? then Success(xs + r.value) else r
  }

  lemma EqBehindMore(xs: seq<seq<string>>, ys: seq<seq<string>>, r: Result<seq<seq<string>>, Fault>)
    ensures EqBehind(xs, EqBehind(ys, r)) == EqBehind(xs + ys, r)
  {
    if r.Success? {
      assert xs + (ys + r.value) == xs + ys + r.value;
    }
  }

  method EqualPositions(q: Query, eqpos: seq<seq<string>>, fields: map<string, bool>) returns (fault: Option<Fault>)
    modifies q`ser
    ensures fault == EqualsFault(eqpos, fields)
    ensures fault.None? ==> q.ser == old(q.ser) + EqToks(eqpos, q.Bracket())
  {
    ghost var s0 := q.ser;
    ghost var done: seq<seq<string>> := [];
    var i := 0;
    while i < |eqpos|
      invariant i <= |eqpos| && done == eqpos[..i]
      invariant EqualsFault(eqpos, fields) == EqualsFault(eqpos[i..], fields)
      invariant q.ser == s0 + EqToks(done, q.Bracket())
    {
      assert eqpos[i..][0] == eqpos[i] && eqpos[i..][1..] == eqpos[i + 1..];
      if |eqpos[i]| < 2 {
        return Some(EqualArguments);
      }
      fault := CheckFields(eqpos[i], fields);
      if fault.Some? {
        return;
      }
      q.EqualPosition(eqpos[i]);
      EqToksConcat(done, [eqpos[i]], q.Bracket());
      Three(s0, EqToks(done, q.Bracket()), EqToks([eqpos[i]], q.Bracket()));
      assert [eqpos[i]][1..] == [];
      done := done + [eqpos[i]];
      i := i + 1;
    }
    fault := None;
    assert eqpos[..|eqpos|] == eqpos;
  }

  method CheckFields(positions: seq<string>, fields: map<string, bool>) returns (fault: Option<Fault>)
    ensures fault == FieldsFault(positions, fields)
  {
    var i := 0;
    while i < |positions|
      invariant i <= |positions| && FieldsFault(positions, fields) == FieldsFault(positions[i..], fields)
    {
      assert positions[i..][0] == positions[i] && positions[i..][1..] == positions[i + 1..];
      if positions[i] !in fields {
        return Some(EqualUnknown);
      }
      if !fields[positions[i]] {
        return Some(EqualNotAnd);
      }
      i := i + 1;
    }
    fault := None;
  }

  lemma {:induction false} EqToksConcat(xs: seq<seq<string>>, ys: seq<seq<string>>, b: nat)
    ensures EqToks(xs + ys, b) == EqToks(xs, b) + EqToks(ys, b)
    decreases |xs|
  {
    if xs == [] {
      assert xs + ys == ys;
    } else {
      assert (xs + ys)[1..] == xs[1..] + ys;
      EqToksConcat(xs[1..], ys, b);
    }
  }

  // ---- the query of a request ----

  // What a request means: the query's head and tree, or the first fault.
  function WantQuery(d: Dsl): Result<(Head, Forest), Fault> {
    if d.ns == "" then Failure(EmptyNamespace)
    else if AggsFault(d.aggs).Some? then Failure(AggsFault(d.aggs).value)
    else
      var f := Want(d.filters);
      if f.Failure? then Failure(f.error)
      else Success((Head(d.ns, d.offset, if d.limit > 0 then d.limit else 0, d.reqTotal, d.aggs, []), f.value))
  }

  // A join-free request that is accepted becomes a stream that reads as the tree it
  // means: skipped filters gone and nothing else, equal positions at their brackets, no
  // bracket left open and no operator left over.
  method QueryFrom(d: Dsl) returns (q: Query?, fault: Option<Fault>)
    requires JoinFree(d.filters)
    ensures (q != null <==> fault.None?) && (fault.None? <==> WantQuery(d).Success?)
    ensures fault.Some? ==> WantQuery(d) == Failure(fault.value)
    ensures q != null ==> q.head == WantQuery(d).value.0 && ReadAll(q.ser) == Some(WantQuery(d).value.1)
    ensures q != null ==> q.openedBrackets == [] && q.nextOp == AND
  {
    if d.ns == "" {
      return null, Some(EmptyNamespace);
    }
    var head := Head(d.ns, d.offset, 0, false, [], []);
    if d.limit > 0 {
      head := head.(limit := d.limit);
    }
    head, fault := AddAggregations(head, d.aggs);
    if fault.Some? {
      return null, fault;
    }
    if d.reqTotal {
      head := head.(reqTotal := true);
    }
    var sq := new Query(head);
    fault := HandleFilters(d.filters, false, sq);
    if fault.Some? {
      return null, fault;
    }
    ReadBack(Want(d.filters).value);
    assert sq.ser == Toks(Want(d.filters).value, 0, 0);
    q := sq;
  }
}
