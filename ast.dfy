/**
 * The syntax tree (exprs.cpp). An `ExprPtr` that may be null is an
 * `Option<Expr>`: the parser leaves a null placeholder wherever a form could
 * not be completed. Virtual queries become functions by cases, and the
 * double dispatch of `accept_visitor` becomes a `match`.
 */
module Syntax {
  import opened Wrappers
  import opened Tokens
  import opened Tags

  datatype Expr =
    | Datum(token: Token, tag: BasicTypeTag)
    | Listy(items: seq<Option<Expr>>)
    | VariableDefine(name: string, initExpr: Option<Expr>)
    | LambdaDefine(params: seq<string>, body: Option<Expr>)
    | Cond(cases: seq<Case>)

  datatype Case = Case(test: Option<Expr>, result: Option<Expr>)

  /**
   * The number of iterator steps from `begin` to `end` of a container, as the
   * `Listy` and `Cond` constructors count their `m_count`.
   */
  method CountElements<T>(xs: seq<T>) returns (count: nat)
    ensures count == |xs|
  {
    count := 0;
    var i := 0;
    while i < |xs|
      invariant 0 <= i <= |xs| && count == i
    {
      count := count + 1;
      i := i + 1;
    }
  }

  /** The `Listy` constructor: the node and the count it stores. */
  method NewListy(items: seq<Option<Expr>>) returns (e: Expr, count: nat)
    ensures e == Listy(items) && count == Size(e) == |items|
  {
    e := Listy(items);
    count := CountElements(items);
  }

  /** The `Cond` constructor: the node and the count it stores. */
  method NewCond(cases: seq<Case>) returns (e: Expr, count: nat)
    ensures e == Cond(cases) && count == Size(e) == |cases|
  {
    e := Cond(cases);
    count := CountElements(cases);
  }

  /** `size()`: one for a single node, the number of items of a list and of cases of a `cond`; only those two can be empty. */
  function Size(e: Expr): (n: nat)
    ensures e.Listy? ==> n == |e.items|
    ensures e.Cond? ==> n == |e.cases|
    ensures !e.Listy? && !e.Cond? ==> n == 1
    ensures n == 0 ==> e.Listy? || e.Cond?
  {
    match e
    case Datum(_, _) => 1
    case Listy(items) => |items|
    case VariableDefine(_, _) => 1
    case LambdaDefine(_, _) => 1
    case Cond(cases) => |cases|
  }

  /**
   * `VariableDefine::basic_type` dereferences its initializer without a
   * check, so it is defined only along a chain of definitions that ends in a
   * non-definition.
   */
  predicate HasBasicType(e: Expr) {
    match e
    case VariableDefine(_, init) => init.Some? && HasBasicType(init.value)
    case _ => true
  }

  /**
   * `basic_type()`. A definition has the type of what it finally binds;
   * anything else reports its own kind: the datum's stored tag, `listy` for a
   * list, `callable` for a lambda, `unknown` for a `cond`.
   */
  function BasicType(e: Expr): (t: BasicTypeTag)
    requires HasBasicType(e)
    ensures var d := Definiens(e);
      && (d.Datum? ==> t == d.tag)
      && (d.Listy? ==> t == ListyType)
      && (d.LambdaDefine? ==> t == CallableType)
      && (d.Cond? ==> t == UnknownType)
  {
    match e
    case Datum(_, tag) => tag
    case Listy(_) => ListyType
    case VariableDefine(_, init) => BasicType(init.value)
    case LambdaDefine(_, _) => CallableType
    case Cond(_) => UnknownType
  }

  /** The expression a chain of definitions finally binds. */
  function Definiens(e: Expr): (d: Expr)
    requires HasBasicType(e)
    ensures !d.VariableDefine?
  {
    if e.VariableDefine? then Definiens(e.initExpr.value) else e
  }

  /** `listy_tag()`: each node kind reports its own tag. */
  function ListyTag(e: Expr): (t: ListTag)
    ensures (t == ExprDatum <==> e.Datum?) && (t == ExprMultiple <==> e.Listy?)
    ensures (t == DefVariable <==> e.VariableDefine?) && (t == DefLambda <==> e.LambdaDefine?)
    ensures t == BlockDo <==> e.Cond?
  {
    match e
    case Datum(_, _) => ExprDatum
    case Listy(_) => ExprMultiple
    case VariableDefine(_, _) => DefVariable
    case LambdaDefine(_, _) => DefLambda
    case Cond(_) => BlockDo
  }

  /** The five methods of `ExprVisitor`. */
  datatype VisitMethod = VisitDatum | VisitListy | VisitVariableDefine | VisitLambdaDefine | VisitCond

  /** `accept_visitor`: the one visit method that the node's dynamic type calls. */
  function AcceptVisitor(e: Expr): (m: VisitMethod)
    ensures m == VisitDatum <==> e.Datum?
    ensures m == VisitListy <==> e.Listy?
    ensures m == VisitVariableDefine <==> e.VariableDefine?
    ensures m == VisitLambdaDefine <==> e.LambdaDefine?
    ensures m == VisitCond <==> e.Cond?
  {
    match e
    case Datum(_, _) => VisitDatum
    case Listy(_) => VisitListy
    case VariableDefine(_, _) => VisitVariableDefine
    case LambdaDefine(_, _) => VisitLambdaDefine
    case Cond(_) => VisitCond
  }

  /**
   * The list tag tells the node's kind apart, except that a `cond` reports
   * `block_do`: the visitor a node calls is a function of its list tag.
   */
  lemma ListyTagDeterminesVisitor(e1: Expr, e2: Expr)
    ensures ListyTag(e1) == ListyTag(e2) <==> AcceptVisitor(e1) == AcceptVisitor(e2)
    ensures ListyTag(e1) == BlockDo <==> AcceptVisitor(e1) == VisitCond
  {
  }
}
