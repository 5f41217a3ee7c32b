/** The table-driven s-expression generator shared by `Axiom::Sexp::Generator`
    and `Veritas::Sexp::Generator`.

    `visit` looks the node's exact class up in a registry. An unregistered
    value comes back unchanged; a registered one is handed to the interpreter
    the registry entry names (`send(name, relation, *options)`), and the
    interpreter builds a fresh array, calling `visit` again only on the
    children it reads. The two Ruby modules differ only in their registry, in
    which interpreters they define and in the default of `unary`'s field
    parameter; a `Dialect` records exactly those differences.
 */
module Generator {
  import opened RubyValues

  /** The symbol a registry entry starts with: one of the eight rule
      interpreters, or any other symbol. */
  datatype Selector =
    | StaticSel | BinarySel | UnarySel | CollectSel
    | ExtendSel | BaseSel | MaterializedSel | AttributeSel
    | UnknownSel(symbol: string)

  /** The Ruby symbol, as an error message names it. */
  function SymbolOf(s: Selector): (r: string)
    ensures s.UnknownSel? ==> r == s.symbol
    ensures !s.UnknownSel? ==> r in {"static", "binary", "unary", "collect", "extend", "base", "materialized", "attribute"}
  {
    match s
    case StaticSel => "static"
    case BinarySel => "binary"
    case UnarySel => "unary"
    case CollectSel => "collect"
    case ExtendSel => "extend"
    case BaseSel => "base"
    case MaterializedSel => "materialized"
    case AttributeSel => "attribute"
    case UnknownSel(symbol) => symbol
  }

  /** A registry entry `[name, *options]`: the interpreter to send to and the
      extra arguments it is given after the node. */
  datatype Rule = Rule(name: Selector, options: seq<string>)

  /** What distinguishes one generator module from the other. */
  datatype Dialect = Dialect(
    registry: ClassName -> Option<Rule>,  // `REGISTRY.fetch(klass)`, None when absent
    hasStatic: bool,                  // the module defines `static`
    hasMaterialized: bool,            // the module defines `materialized`
    unaryDefault: Option<string>)     // default of `unary`'s field parameter, if any

  /** The class is a key of the registry. */
  predicate Registered(d: Dialect, c: ClassName)
  {
    d.registry(c).Some?
  }

  function RuleOf(d: Dialect, c: ClassName): (rule: Rule)
    requires Registered(d, c)
  {
    d.registry(c).value
  }

  // ---------------------------------------------------------------------------
  // Dispatch: `send(name, relation, *options)`
  // ---------------------------------------------------------------------------

  /** The rule interpreters a module defines. */
  predicate Defines(d: Dialect, name: Selector)
  {
    match name
    case StaticSel => d.hasStatic
    case MaterializedSel => d.hasMaterialized
    case UnknownSel(_) => false
    case _ => true
  }

  /** Fewest positional arguments the interpreter accepts, the node included. */
  function MinArgs(d: Dialect, name: Selector): (n: nat)
  {
    if name == StaticSel || name == BinarySel then 2
    else if name == UnarySel then (if d.unaryDefault.Some? then 2 else 3)
    else 1
  }

  /** Most positional arguments the interpreter accepts, the node included. */
  function MaxArgs(name: Selector): (n: nat)
  {
    if name == StaticSel then 2
    else if name == BinarySel then 4
    else if name == UnarySel then 3
    else 1
  }

  /** The error `send` raises for this rule before the interpreter runs, if any:
      NoMethodError for an interpreter the module lacks, ArgumentError when the
      node plus the options do not fit its parameter list. */
  function DispatchError(d: Dialect, rule: Rule): (r: Option<Error>)
    ensures r.None? <==> Dispatchable(d, rule)
    ensures !Defines(d, rule.name) ==> r == Some(NoMethodError(SymbolOf(rule.name)))
    ensures Defines(d, rule.name) && r.Some? ==>
      r == Some(ArgumentError(SymbolOf(rule.name), 1 + |rule.options|, MinArgs(d, rule.name), MaxArgs(rule.name)))
  {
    var given := 1 + |rule.options|;
    if !Defines(d, rule.name) then Some(NoMethodError(SymbolOf(rule.name)))
    else if given < MinArgs(d, rule.name) || MaxArgs(rule.name) < given then
      Some(ArgumentError(SymbolOf(rule.name), given, MinArgs(d, rule.name), MaxArgs(rule.name)))
    else None
  }

  /** The rule names an interpreter the module defines, with an argument count
      that fits it. */
  predicate Dispatchable(d: Dialect, rule: Rule)
  {
    Defines(d, rule.name) && MinArgs(d, rule.name) <= 1 + |rule.options| <= MaxArgs(rule.name)
  }

  /** `binary(relation, tag, left = :left, right = :right)` */
  function LeftField(options: seq<string>): (field: string)
  {
    if |options| >= 2 then options[1] else "left"
  }

  function RightField(options: seq<string>): (field: string)
  {
    if |options| >= 3 then options[2] else "right"
  }

  /** `unary(relation, tag, operand)`, with the module's default if it has one. */
  function UnaryField(d: Dialect, options: seq<string>): (field: string)
    requires |options| >= 2 || d.unaryDefault.Some?
  {
    if |options| >= 2 then options[1] else d.unaryDefault.value
  }

  // ---------------------------------------------------------------------------
  // Helpers that do not recurse through `visit`
  // ---------------------------------------------------------------------------

  /** `xs.map { |x| f(x) }` where `f` may raise: the first exception wins. */
  function MapResult<A, B>(f: A -> Result<B>, xs: seq<A>): (r: Result<seq<B>>)
    ensures r.Ok? <==> forall i :: 0 <= i < |xs| ==> f(xs[i]).Ok?
    ensures r.Ok? ==> |r.value| == |xs| && forall i :: 0 <= i < |xs| ==> f(xs[i]) == Ok(r.value[i])
    ensures r.Err? ==> exists i :: 0 <= i < |xs| && f(xs[i]) == Err(r.error)
                                && forall j :: 0 <= j < i ==> f(xs[j]).Ok?
  {
    if xs == [] then Ok([])
    else
      var y :- f(xs[0]);
      var ys :- MapResult(f, xs[1..]);
      Ok([y] + ys)
  }

  /** `base_attribute(attribute)`: `[attribute.name, attribute.class]`. */
  function BaseAttribute(attribute: Val): (r: Result<Val>)
    ensures r.Ok? <==> Send(attribute, "name").Ok?
    ensures r.Ok? ==> r.value == Arr([Send(attribute, "name").value, ClassRef(ClassOf(attribute))])
    ensures r.Err? ==> r.error == NoMethodError("name")
  {
    var name :- Send(attribute, "name");
    Ok(Arr([name, ClassRef(ClassOf(attribute))]))
  }

  /** `base_header(header)`: one `[name, class]` pair per attribute, in header
      order; the attributes themselves are not visited. */
  function BaseHeader(header: Val): (r: Result<seq<Val>>)
    ensures r.Ok? <==> Each(header).Ok? && forall a <- Each(header).value :: Send(a, "name").Ok?
    ensures r.Ok? ==> var attributes := Each(header).value;
      && |r.value| == |attributes|
      && forall i :: 0 <= i < |attributes| ==>
           r.value[i] == Arr([Send(attributes[i], "name").value, ClassRef(ClassOf(attributes[i]))])
    ensures r.Err? ==> r.error == if Each(header).Err? then NoMethodError("map") else NoMethodError("name")
  {
    var attributes :- Each(header);
    assert forall i :: 0 <= i < |attributes| ==>
      (BaseAttribute(attributes[i]).Ok? <==> Send(attributes[i], "name").Ok?);
    MapResult(BaseAttribute, attributes)
  }

  /** `tuples(relation)`: `relation.map(&:to_ary)`, the rows as raw arrays. */
  function Tuples(relation: Val): (r: Result<seq<Val>>)
    ensures r.Ok? <==> Each(relation).Ok? && forall t <- Each(relation).value :: ToAry(t).Ok?
    ensures r.Ok? ==> var rows := Each(relation).value;
      |r.value| == |rows| && forall i :: 0 <= i < |rows| ==> ToAry(rows[i]) == Ok(r.value[i])
    ensures r.Err? ==> r.error == if Each(relation).Err? then NoMethodError("map") else NoMethodError("to_ary")
  {
    var rows :- Each(relation);
    MapResult(ToAry, rows)
  }

  // ---------------------------------------------------------------------------
  // The visitor and its interpreters
  // ---------------------------------------------------------------------------

  /** `visit(relation)`: identity for an unregistered class, otherwise the
      registered interpreter applied to the node. */
  function Visit(d: Dialect, v: Val): (r: Result<Val>)
    ensures Registered(d, ClassOf(v)) && r.Ok? ==> r.value.Arr?
    decreases v, 3
  {
    if !Registered(d, ClassOf(v)) then Ok(v)
    else Interpret(d, v, RuleOf(d, ClassOf(v)))
  }

  /** `send(name, relation, *options)` */
  function Interpret(d: Dialect, v: Val, rule: Rule): (r: Result<Val>)
    ensures !Dispatchable(d, rule) ==> r == Err(DispatchError(d, rule).value)
    ensures r.Ok? ==> r.value.Arr?
    decreases v, 2
  {
    match DispatchError(d, rule)
    case Some(e) => Err(e)
    case None =>
      var name, options := rule.name, rule.options;
      if name == StaticSel then Static(options[0])
      else if name == BinarySel then Binary(d, v, options)
      else if name == UnarySel then Unary(d, v, options)
      else if name == CollectSel then Collect(d, v)
      else if name == ExtendSel then Extend(d, v)
      else if name == BaseSel then Base(v)
      else if name == MaterializedSel then Materialized(v)
      else Attribute(v)
  }

  /** `static(_relation, tag)`: `[tag]`, whatever the node holds. */
  function Static(tag: string): (r: Result<Val>)
    ensures r.Ok? && r.value.Arr? && |r.value.items| == 1
  {
    Ok(Arr([Sym(tag)]))
  }

  /** `binary(relation, tag, left, right)`:
      `[tag, visit(relation.left), visit(relation.right)]`. */
  function Binary(d: Dialect, v: Val, options: seq<string>): (r: Result<Val>)
    requires 1 <= |options| <= 3
    ensures r.Ok? ==> r.value.Arr? && |r.value.items| == 3 && r.value.items[0] == Sym(options[0])
    decreases v, 1
  {
    var left :- Send(v, LeftField(options));
    var l :- Visit(d, left);
    var right :- Send(v, RightField(options));
    var rr :- Visit(d, right);
    Ok(Arr([Sym(options[0]), l, rr]))
  }

  /** `unary(relation, tag, operand)`: `[tag, visit(relation.operand)]`. */
  function Unary(d: Dialect, v: Val, options: seq<string>): (r: Result<Val>)
    requires 1 <= |options| && (|options| >= 2 || d.unaryDefault.Some?)
    ensures r.Ok? ==> r.value.Arr? && |r.value.items| == 2 && r.value.items[0] == Sym(options[0])
    decreases v, 1
  {
    var operand :- Send(v, UnaryField(d, options));
    var o :- Visit(d, operand);
    Ok(Arr([Sym(options[0]), o]))
  }

  /** `collect(input)`: `input.map { |item| visit(item) }`. */
  function Collect(d: Dialect, v: Val): (r: Result<Val>)
    ensures r.Ok? ==> r.value.Arr? && Each(v).Ok? && |r.value.items| == |Each(v).value|
    decreases v, 1
  {
    var items :- Each(v);
    var visited :- VisitAll(d, v, items);
    Ok(Arr(visited))
  }

  /** Every item visited, in order; the first failure wins. */
  function VisitAll(d: Dialect, parent: Val, items: seq<Val>): (r: Result<seq<Val>>)
    requires forall i :: 0 <= i < |items| ==> items[i] < parent
    ensures r.Ok? <==> forall i :: 0 <= i < |items| ==> Visit(d, items[i]).Ok?
    ensures r.Ok? ==> |r.value| == |items|
    ensures r.Ok? ==> forall i :: 0 <= i < |items| ==> Visit(d, items[i]) == Ok(r.value[i])
    ensures r.Err? ==> exists i :: 0 <= i < |items| && Visit(d, items[i]) == Err(r.error)
                                && forall j :: 0 <= j < i ==> Visit(d, items[j]).Ok?
    decreases parent, 0, |items|
  {
    if items == [] then Ok([])
    else
      var x :- Visit(d, items[0]);
      var xs :- VisitAll(d, parent, items[1..]);
      Ok([x] + xs)
  }

  /** `extend(relation)`:
      `[:extend, visit(relation.operand), extensions(relation.extensions)]`. */
  function Extend(d: Dialect, v: Val): (r: Result<Val>)
    ensures r.Ok? ==> r.value.Arr? && |r.value.items| == 3 && r.value.items[0] == Sym("extend")
    decreases v, 1
  {
    var operand :- Send(v, "operand");
    var o :- Visit(d, operand);
    var extensions :- Send(v, "extensions");
    var entries :- Pairs(extensions);
    var es :- Extensions(d, v, entries);
    Ok(Arr([Sym("extend"), o, Arr(es)]))
  }

  /** `extensions(hash)`: `[attribute.name, visit(expression)]` per entry, in
      the mapping's order; the first failure wins. */
  function Extensions(d: Dialect, parent: Val, entries: seq<(Val, Val)>): (r: Result<seq<Val>>)
    requires forall i :: 0 <= i < |entries| ==> entries[i].1 < parent
    ensures r.Ok? <==> forall i :: 0 <= i < |entries| ==>
                         Send(entries[i].0, "name").Ok? && Visit(d, entries[i].1).Ok?
    ensures r.Ok? ==> |r.value| == |entries|
    ensures r.Ok? ==> forall i :: 0 <= i < |entries| ==>
      r.value[i] == Arr([Send(entries[i].0, "name").value, Visit(d, entries[i].1).value])
    decreases parent, 0, |entries|
  {
    if entries == [] then Ok([])
    else
      var name :- Send(entries[0].0, "name");
      var e :- Visit(d, entries[0].1);
      var rest :- Extensions(d, parent, entries[1..]);
      Ok([Arr([name, e])] + rest)
  }

  /** `base(relation)`: `[:base, relation.name, base_header(relation.header)]`. */
  function Base(v: Val): (r: Result<Val>)
    ensures r.Ok? ==> r.value.Arr? && |r.value.items| == 3 && r.value.items[0] == Sym("base")
  {
    var name :- Send(v, "name");
    var header :- Send(v, "header");
    var h :- BaseHeader(header);
    Ok(Arr([Sym("base"), name, Arr(h)]))
  }

  /** `materialized(materialized)`:
      `[:materialized, base_header(materialized.header), tuples(materialized)]`. */
  function Materialized(v: Val): (r: Result<Val>)
    ensures r.Ok? ==> r.value.Arr? && |r.value.items| == 3 && r.value.items[0] == Sym("materialized")
  {
    var header :- Send(v, "header");
    var h :- BaseHeader(header);
    var rows :- Tuples(v);
    Ok(Arr([Sym("materialized"), Arr(h), Arr(rows)]))
  }

  /** `attribute(attribute)`: `[:attr, attribute.name]`. */
  function Attribute(v: Val): (r: Result<Val>)
    ensures r.Ok? ==> r.value.Arr? && |r.value.items| == 2 && r.value.items[0] == Sym("attr")
  {
    var name :- Send(v, "name");
    Ok(Arr([Sym("attr"), name]))
  }
}
