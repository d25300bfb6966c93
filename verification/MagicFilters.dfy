/**
 The filter expressions: closures over the event, built by operators, that may raise.

 What attribute access, indexing, comparison and truth testing do is left to the objects (`O`)
 themselves; each may raise. `Python` collects them.
 */
module MagicFilters {
  import opened Common

  /** The three exceptions a filter catches, and any other. */
  datatype Error = AttributeError | KeyError | TypeError | OtherError(code: int)

  datatype Result<+T> = Ok(value: T) | Err(error: Error)

  datatype CompareOp = Eq | Ne | Gt | Ge | Lt | Le

  datatype Python<!O> = Python(
    getAttr: (O, string) -> Result<O>,
    getItem: (O, O) -> Result<O>,
    compare: (CompareOp, O, O) -> Result<O>,
    truth: O -> Result<bool>,
    boolean: bool -> O
  )

  /** The two booleans are objects that test as themselves. */
  ghost predicate Sound<O>(py: Python<O>) {
    py.truth(py.boolean(true)) == Ok(true) && py.truth(py.boolean(false)) == Ok(false)
  }

  predicate Caught(e: Error) {
    !e.OtherError?
  }

  // ---- The objects the operators build ----

  datatype MagicFilter<!O> = MagicFilter(resolver: O -> Result<O>) {

    function GetAttr(py: Python<O>, name: string): MagicFilter<O> {
      var resolve := resolver;
      MagicFilter(e => match resolve(e) case Err(x) => Err(x) case Ok(v) => py.getAttr(v, name))
    }

    function GetItem(py: Python<O>, key: O): MagicFilter<O> {
      var resolve := resolver;
      MagicFilter(e => match resolve(e) case Err(x) => Err(x) case Ok(v) => py.getItem(v, key))
    }

    function Compare(py: Python<O>, op: CompareOp, other: O): MagicFilter<O> {
      var resolve := resolver;
      MagicFilter(e => match resolve(e) case Err(x) => Err(x) case Ok(v) => py.compare(op, v, other))
    }

    function And(py: Python<O>, other: MagicFilter<O>): MagicFilter<O> {
      var resolve, resolveOther := resolver, other.resolver;
      MagicFilter(e =>
        match Test(py, resolve(e))
        case Err(x) => Err(x)
        case Ok(false) => Ok(py.boolean(false))
        case Ok(true) => match Test(py, resolveOther(e)) case Err(x) => Err(x) case Ok(b) => Ok(py.boolean(b)))
    }

    function Or(py: Python<O>, other: MagicFilter<O>): MagicFilter<O> {
      var resolve, resolveOther := resolver, other.resolver;
      MagicFilter(e =>
        match Test(py, resolve(e))
        case Err(x) => Err(x)
        case Ok(true) => Ok(py.boolean(true))
        case Ok(false) => match Test(py, resolveOther(e)) case Err(x) => Err(x) case Ok(b) => Ok(py.boolean(b)))
    }

    function Invert(py: Python<O>): MagicFilter<O> {
      var resolve := resolver;
      MagicFilter(e => match Test(py, resolve(e)) case Err(x) => Err(x) case Ok(b) => Ok(py.boolean(!b)))
    }

    /** Whether the event passes; a caught exception fails it, any other leaves the filter. */
    function Call(py: Python<O>, event: O): Result<bool> {
      match Test(py, resolver(event))
      case Ok(b) => Ok(b)
      case Err(x) => if Caught(x) then Ok(false) else Err(x)
    }
  }

  /** The truth value of a result. */
  function Test<O>(py: Python<O>, r: Result<O>): Result<bool> {
    match r case Err(x) => Err(x) case Ok(v) => py.truth(v)
  }

  /** The expression that stands for the event itself. */
  function F<O>(): MagicFilter<O> {
    MagicFilter(e => Ok(e))
  }

  // ---- Expressions and their meaning ----

  datatype Expr<O> =
    | Event
    | Attr(of: Expr<O>, name: string)
    | Item(of: Expr<O>, key: O)
    | Cmp(op: CompareOp, left: Expr<O>, right: O)
    | Conj(left: Expr<O>, rhs: Expr<O>)
    | Disj(left: Expr<O>, rhs: Expr<O>)
    | Neg(of: Expr<O>)

  /** The filter an expression builds. */
  function Build<O>(py: Python<O>, x: Expr<O>): MagicFilter<O> {
    match x
    case Event => F()
    case Attr(a, name) => Build(py, a).GetAttr(py, name)
    case Item(a, key) => Build(py, a).GetItem(py, key)
    case Cmp(op, a, c) => Build(py, a).Compare(py, op, c)
    case Conj(a, b) => Build(py, a).And(py, Build(py, b))
    case Disj(a, b) => Build(py, a).Or(py, Build(py, b))
    case Neg(a) => Build(py, a).Invert(py)
  }

  /** What evaluating an expression from left to right gives: the value, or the first exception. */
  function Eval<O>(py: Python<O>, x: Expr<O>, event: O): Result<O>
    decreases x, 1
  {
    match x
    case Event => Ok(event)
    case Attr(a, name) => var v := Eval(py, a, event); if v.Err? then v else py.getAttr(v.value, name)
    case Item(a, key) => var v := Eval(py, a, event); if v.Err? then v else py.getItem(v.value, key)
    case Cmp(op, a, c) => var v := Eval(py, a, event); if v.Err? then v else py.compare(op, v.value, c)
    case Conj(_, _) => Boolean(py, Truth(py, x, event))
    case Disj(_, _) => Boolean(py, Truth(py, x, event))
    case Neg(_) => Boolean(py, Truth(py, x, event))
  }

  function Boolean<O>(py: Python<O>, t: Result<bool>): Result<O> {
    match t case Err(e) => Err(e) case Ok(b) => Ok(py.boolean(b))
  }

  /** The truth of an expression: conjunction and disjunction look at their right side only when the
      left side came out true, or false; an exception on the way is the result. */
  function Truth<O>(py: Python<O>, x: Expr<O>, event: O): Result<bool>
    decreases x, 0
  {
    match x
    case Conj(a, b) => if Truth(py, a, event) == Ok(true) then Truth(py, b, event) else Truth(py, a, event)
    case Disj(a, b) => if Truth(py, a, event) == Ok(false) then Truth(py, b, event) else Truth(py, a, event)
    case Neg(a) => Negated(Truth(py, a, event))
    case Event => Test(py, Ok(event))
    case Attr(a, name) => var v := Eval(py, a, event); Test(py, if v.Err? then v else py.getAttr(v.value, name))
    case Item(a, key) => var v := Eval(py, a, event); Test(py, if v.Err? then v else py.getItem(v.value, key))
    case Cmp(op, a, c) => var v := Eval(py, a, event); Test(py, if v.Err? then v else py.compare(op, v.value, c))
  }

  function Negated(t: Result<bool>): Result<bool> {
    match t case Err(e) => Err(e) case Ok(b) => Ok(!b)
  }

  lemma {:induction false} TruthTestsValue<O>(py: Python<O>, x: Expr<O>, event: O)
    requires Sound(py)
    ensures Test(py, Eval(py, x, event)) == Truth(py, x, event)
  {
    if x.Conj? || x.Disj? || x.Neg? {
      var t := Truth(py, x, event);
      if t.Ok? {
        var b: bool := t.value;
        if b {
          assert t == Ok(true);
        } else {
          assert t == Ok(false);
        }
      }
    }
  }

  /** The closures the operators build compute exactly this, on every event and for every expression. */
  lemma {:induction false} BuildMeansEval<O>(py: Python<O>, x: Expr<O>, event: O)
    requires Sound(py)
    ensures Build(py, x).resolver(event) == Eval(py, x, event)
  {
    match x
    case Event =>
    case Attr(a, _) => BuildMeansEval(py, a, event);
    case Item(a, _) => BuildMeansEval(py, a, event);
    case Cmp(_, a, _) => BuildMeansEval(py, a, event);
    case Conj(a, b) =>
      BuildMeansEval(py, a, event);
      BuildMeansEval(py, b, event);
      TruthTestsValue(py, a, event);
      TruthTestsValue(py, b, event);
    case Disj(a, b) =>
      BuildMeansEval(py, a, event);
      BuildMeansEval(py, b, event);
      TruthTestsValue(py, a, event);
      TruthTestsValue(py, b, event);
    case Neg(a) =>
      BuildMeansEval(py, a, event);
      TruthTestsValue(py, a, event);
  }

  /** Attribute access, indexing and comparison act on the value of what stands left of them, and what that
      raises is what they raise. */
  lemma FieldsAreRead<O>(py: Python<O>, a: Expr<O>, name: string, op: CompareOp, c: O, event: O)
    ensures var left := Build(py, a).resolver(event);
      && Build(py, Attr(a, name)).resolver(event) == (if left.Err? then left else py.getAttr(left.value, name))
      && Build(py, Item(a, c)).resolver(event) == (if left.Err? then left else py.getItem(left.value, c))
      && Build(py, Cmp(op, a, c)).resolver(event) == (if left.Err? then left else py.compare(op, left.value, c))
  {
  }

  /** So calling the built filter gives the truth of the expression, with the three exceptions a
      filter catches turned into failing. */
  lemma CallMeansTruth<O>(py: Python<O>, x: Expr<O>, event: O)
    requires Sound(py)
    ensures Build(py, x).Call(py, event) ==
      match Truth(py, x, event)
      case Ok(b) => Ok(b)
      case Err(OtherError(code)) => Err(OtherError(code))
      case Err(_) => Ok(false)
  {
    BuildMeansEval(py, x, event);
    TruthTestsValue(py, x, event);
  }

  // ---- Laws ----

  ghost predicate Passes<O>(py: Python<O>, x: Expr<O>, event: O) {
    Build(py, x).Call(py, event) == Ok(true)
  }

  ghost predicate Fails<O>(py: Python<O>, x: Expr<O>, event: O) {
    Build(py, x).Call(py, event) == Ok(false)
  }

  ghost predicate RaisesCaught<O>(py: Python<O>, x: Expr<O>, event: O) {
    Truth(py, x, event) in {Err(AttributeError), Err(KeyError), Err(TypeError)}
  }

  /** The right side of a conjunction is looked at only if the left one came out true, and that of a
      disjunction only if it came out false; then it alone decides. Otherwise the left side does, be it by
      its truth or by what it raises. */
  lemma RightSideDecidesIff<O>(py: Python<O>, a: Expr<O>, b: Expr<O>, event: O)
    requires Sound(py)
    ensures var left := Test(py, Build(py, a).resolver(event));
      && Build(py, Conj(a, b)).Call(py, event) == Build(py, if left == Ok(true) then b else a).Call(py, event)
      && Build(py, Disj(a, b)).Call(py, event) == Build(py, if left == Ok(false) then b else a).Call(py, event)
  {
    BuildMeansEval(py, a, event);
    TruthTestsValue(py, a, event);
    CallMeansTruth(py, a, event);
    CallMeansTruth(py, b, event);
    CallMeansTruth(py, Conj(a, b), event);
    CallMeansTruth(py, Disj(a, b), event);
  }

  /** A conjunction passes exactly when both sides pass, whatever they raise. */
  lemma ConjPassesIff<O>(py: Python<O>, a: Expr<O>, b: Expr<O>, event: O)
    requires Sound(py)
    ensures Passes(py, Conj(a, b), event) <==> Passes(py, a, event) && Passes(py, b, event)
  {
    CallMeansTruth(py, a, event);
    CallMeansTruth(py, b, event);
    CallMeansTruth(py, Conj(a, b), event);
  }

  /** An expression and its negation never both pass, and both fail exactly when a caught exception
      is raised: negating is not complementing. */
  lemma NegationLaws<O>(py: Python<O>, a: Expr<O>, event: O)
    requires Sound(py)
    ensures !(Passes(py, a, event) && Passes(py, Neg(a), event))
    ensures Fails(py, a, event) && Fails(py, Neg(a), event) <==> RaisesCaught(py, a, event)
  {
    CallMeansTruth(py, a, event);
    CallMeansTruth(py, Neg(a), event);
  }

  /** A passing disjunction has a passing side. The converse fails, and it fails exactly when the left
      side raises while the right one would have passed. */
  lemma DisjPassesIff<O>(py: Python<O>, a: Expr<O>, b: Expr<O>, event: O)
    requires Sound(py)
    ensures Passes(py, Disj(a, b), event) ==> Passes(py, a, event) || Passes(py, b, event)
    ensures (Passes(py, a, event) || Passes(py, b, event)) && !Passes(py, Disj(a, b), event) <==>
      Truth(py, a, event).Err? && Passes(py, b, event)
  {
    CallMeansTruth(py, a, event);
    CallMeansTruth(py, b, event);
    CallMeansTruth(py, Disj(a, b), event);
  }

  /** Push negations inwards, down to attribute accesses, indexings and comparisons. */
  function Push<O>(x: Expr<O>, negate: bool): Expr<O> {
    match x
    case Conj(a, b) => if negate then Disj(Push(a, true), Push(b, true)) else Conj(Push(a, false), Push(b, false))
    case Disj(a, b) => if negate then Conj(Push(a, true), Push(b, true)) else Disj(Push(a, false), Push(b, false))
    case Neg(a) => Push(a, !negate)
    case _ => if negate then Neg(x) else x
  }

  /** De Morgan's laws and double negation hold at any depth, exceptions included: which exception is
      raised, and whether one is, does not change. */
  lemma {:induction false} PushKeepsTruth<O>(py: Python<O>, x: Expr<O>, negate: bool, event: O)
    ensures Truth(py, Push(x, negate), event) == if negate then Negated(Truth(py, x, event)) else Truth(py, x, event)
  {
    match x
    case Conj(a, b) => PushKeepsTruth(py, a, negate, event); PushKeepsTruth(py, b, negate, event);
    case Disj(a, b) => PushKeepsTruth(py, a, negate, event); PushKeepsTruth(py, b, negate, event);
    case Neg(a) => PushKeepsTruth(py, a, !negate, event);
    case _ =>
  }

  /** So pushing negations inwards never changes what a filter answers. */
  lemma PushKeepsCall<O>(py: Python<O>, x: Expr<O>, event: O)
    requires Sound(py)
    ensures Build(py, Push(x, false)).Call(py, event) == Build(py, x).Call(py, event)
  {
    PushKeepsTruth(py, x, false, event);
    CallMeansTruth(py, x, event);
    CallMeansTruth(py, Push(x, false), event);
  }
}
