/** `Axiom::Sexp::Generator`: the generic generator with the axiom registry.

    This module defines `static` and `materialized`, and its `unary` has no
    default for the field parameter. Two kinds of registry entry therefore
    cannot run: `[:intersect]` names no interpreter, and the `unary` entries
    that give no field call `unary` with one argument too few.
 */
module AxiomGenerator {
  import opened RubyValues
  import opened Generator
  import opened GeneratorLaws


  /** `REGISTRY`: the rule for each registered class, in the source's order. */
  function Registry(c: ClassName): (entry: Option<Rule>)
  {
    match c
    case Axiom(p) => (
      match p
      case RelationBase          => Some(Rule(BaseSel, []))
      case RelationMaterialized  => Some(Rule(MaterializedSel, []))
      case Order                 => Some(Rule(BinarySel, ["order", "operand", "directions"]))
      case RelationHeader        => Some(Rule(CollectSel, []))
      case DirectionSet          => Some(Rule(CollectSel, []))
      case Ascending             => Some(Rule(UnarySel, ["asc", "attribute"]))
      case Descending            => Some(Rule(UnarySel, ["desc", "attribute"]))
      case Limit                 => Some(Rule(BinarySel, ["limit", "operand", "limit"]))
      case Offset                => Some(Rule(BinarySel, ["offset", "operand", "offset"]))
      case Deletion              => Some(Rule(BinarySel, ["delete", "operand", "other"]))
      case Insertion             => Some(Rule(BinarySel, ["insert", "operand", "other"]))
      case Reverse               => Some(Rule(UnarySel, ["reverse"]))
      case Difference            => Some(Rule(BinarySel, ["difference"]))
      case Extension             => Some(Rule(ExtendSel, []))
      case Intersection          => Some(Rule(UnknownSel("intersect"), []))
      case Join                  => Some(Rule(BinarySel, ["join"]))
      case Product               => Some(Rule(BinarySel, ["product"]))
      case Projection            => Some(Rule(BinarySel, ["project", "operand", "header"]))
      case Rename                => Some(Rule(BinarySel, ["rename"]))
      case Restriction           => Some(Rule(BinarySel, ["restrict", "operand", "predicate"]))
      case Summarization         => Some(Rule(BinarySel, ["summarize"]))
      case Union                 => Some(Rule(BinarySel, ["union"]))
      case Conjunction           => Some(Rule(BinarySel, ["and"]))
      case Disjunction           => Some(Rule(BinarySel, ["or"]))
      case Negation              => Some(Rule(UnarySel, ["not"]))
      case StringLength          => Some(Rule(UnarySel, ["length"]))
      case Equality              => Some(Rule(BinarySel, ["eq"]))
      case Exclusion             => Some(Rule(BinarySel, ["ex"]))
      case GreaterThan           => Some(Rule(BinarySel, ["gt"]))
      case GreaterThanOrEqualTo  => Some(Rule(BinarySel, ["gte"]))
      case Inclusion             => Some(Rule(BinarySel, ["in"]))
      case Inequality            => Some(Rule(BinarySel, ["neq"]))
      case LessThan              => Some(Rule(BinarySel, ["lt"]))
      case LessThanOrEqualTo     => Some(Rule(BinarySel, ["lte"]))
      case Match                 => Some(Rule(BinarySel, ["match"]))
      case NoMatch               => Some(Rule(BinarySel, ["no_match"]))
      case Absolute              => Some(Rule(BinarySel, ["abs"]))
      case Addition              => Some(Rule(BinarySel, ["add"]))
      case Division              => Some(Rule(BinarySel, ["div"]))
      case Exponentiation        => Some(Rule(BinarySel, ["exp"]))
      case Modulo                => Some(Rule(BinarySel, ["mod"]))
      case Multiplication        => Some(Rule(BinarySel, ["mul"]))
      case SquareRoot            => Some(Rule(UnarySel, ["sqr"]))
      case Subtraction           => Some(Rule(BinarySel, ["sub"]))
      case UnaryMinus            => Some(Rule(UnarySel, ["unary_minus"]))
      case UnaryPlus             => Some(Rule(UnarySel, ["unary_plus"]))
      case Tautology             => Some(Rule(StaticSel, ["true"]))
      case Contradiction         => Some(Rule(StaticSel, ["false"]))
      case AttributeString       => Some(Rule(AttributeSel, []))
      case AttributeInteger      => Some(Rule(AttributeSel, []))
      case Tuple                 => None)
    case _ => None
  }

  /** The module: defines `static` and `materialized`; `unary(relation, tag, operand)`
      has no default. */
  const AxiomDialect: Dialect := Dialect(Registry, true, true, None)

  /** `visit(relation)` of this module. */
  function VisitAxiom(v: Val): (r: Result<Val>)
    ensures Registry(ClassOf(v)).Some? && r.Ok? ==> r.value.Arr?
  {
    Visit(AxiomDialect, v)
  }

  /** The keys of `REGISTRY` are the fifty Axiom classes listed, which are
      every modelled Axiom class except `Tuple`; no Veritas class, built-in
      class or other class is a key. */
  lemma RegistryKeys()
    ensures forall c :: Registry(c).Some? <==> c.Axiom? && c.path != Tuple
  {
    forall c ensures Registry(c).Some? <==> c.Axiom? && c.path != Tuple {
      match c
      case Axiom(p) =>
      case _ =>
    }
  }

  /** The unary entries that name no field. */
  const FieldlessUnary: set<ClassName> :=
    {Axiom(Reverse), Axiom(Negation), Axiom(StringLength), Axiom(SquareRoot), Axiom(UnaryMinus), Axiom(UnaryPlus)}

  /** Every class whose registry entry cannot be dispatched. */
  const Broken: set<ClassName> := FieldlessUnary + {Axiom(Intersection)}

  // ---------------------------------------------------------------------------
  // The registry's broken entries
  // ---------------------------------------------------------------------------

  /** Exactly the Intersection entry and the six fieldless unary entries
      cannot be dispatched; every other entry names an interpreter of the
      module with an argument count that fits. */
  lemma BrokenEntriesExactly()
    ensures forall c :: Registered(AxiomDialect, c) ==>
              (!Dispatchable(AxiomDialect, RuleOf(AxiomDialect, c)) <==> c in Broken)
  {
    forall c | Registered(AxiomDialect, c)
      ensures !Dispatchable(AxiomDialect, RuleOf(AxiomDialect, c)) <==> c in Broken
    {
      EntryDispatch(c);
    }
  }

  /** Every broken class is a key of the registry. */
  lemma BrokenAreRegistered()
    ensures forall c :: c in Broken ==> Registered(AxiomDialect, c)
  {
  }

  /** One entry at a time: the registry entry of `c` is broken exactly when
      `c` is in `Broken`. */
  lemma EntryDispatch(c: ClassName)
    requires Registered(AxiomDialect, c)
    ensures !Dispatchable(AxiomDialect, RuleOf(AxiomDialect, c)) <==> c in Broken
  {
    match c
    case Axiom(p) =>
    case _ =>
  }

  /** Visiting an Intersection fails: `send(:intersect, ...)` finds no method. */
  lemma IntersectionFails(v: Val)
    requires ClassOf(v) == Axiom(Intersection)
    ensures VisitAxiom(v) == Err(NoMethodError("intersect"))
  {
    UndispatchableRuleFails(AxiomDialect, v);
  }

  /** The fieldless unary entries fail with an arity error: `unary` is given
      the node and the tag, two arguments, and needs three. */
  lemma FieldlessUnaryFails(v: Val)
    requires ClassOf(v) in FieldlessUnary
    ensures VisitAxiom(v) == Err(ArgumentError("unary", 2, 3, 3))
  {
    var p := ClassOf(v).path;
    assert p in {Reverse, Negation, StringLength, SquareRoot, UnaryMinus, UnaryPlus};
    assert RuleOf(AxiomDialect, Axiom(p)).name == UnarySel && |RuleOf(AxiomDialect, Axiom(p)).options| == 1;
    UnaryWithoutFieldFails(AxiomDialect, v);
  }

  /** A broken node anywhere the visit reaches makes the whole visit fail, and
      there is no partial output. */
  lemma BrokenNodeFailsVisit(v: Val, n: Val)
    requires Reaches(AxiomDialect, v, n) && ClassOf(n) in Broken
    ensures VisitAxiom(v).Err?
  {
    BrokenNodeIsMalformed(n);
    MalformedNodePropagates(AxiomDialect, v, n);
  }

  /** A broken node's own step cannot run. */
  lemma BrokenNodeIsMalformed(n: Val)
    requires ClassOf(n) in Broken
    ensures !LocallyOk(AxiomDialect, n)
  {
    var c := ClassOf(n);
    assert Registered(AxiomDialect, c);
    EntryDispatch(c);
  }

  // ---------------------------------------------------------------------------
  // The identity fallback
  // ---------------------------------------------------------------------------

  /** A value whose class is not a key of the registry comes back unchanged
      (symbols, strings, integers, arrays, classes, and any other object). */
  lemma UnregisteredUnchanged(v: Val)
    requires Registry(ClassOf(v)).None?
    ensures VisitAxiom(v) == Ok(v)
  {
  }

  /** The converse: only unregistered values come back unchanged. */
  lemma IdentityOnlyWhenUnregistered(v: Val)
    ensures VisitAxiom(v) == Ok(v) <==> Registry(ClassOf(v)).None?
  {
    IdentityIffUnregistered(AxiomDialect, v);
  }

  // ---------------------------------------------------------------------------
  // Shapes of particular entries
  // ---------------------------------------------------------------------------

  /** Tautology and Contradiction give `[:true]` and `[:false]`, whatever the node holds. */
  lemma PropositionsAreStatic(v: Val)
    requires ClassOf(v) == Axiom(Tautology) || ClassOf(v) == Axiom(Contradiction)
    ensures VisitAxiom(v) == Ok(Arr([Sym(if ClassOf(v) == Axiom(Tautology) then "true" else "false")]))
  {
    assert RuleOf(AxiomDialect, ClassOf(v)) ==
           Rule(StaticSel, [if ClassOf(v) == Axiom(Tautology) then "true" else "false"]);
    StaticRule(AxiomDialect, v);
  }

  /** Restriction: `[:restrict, visit(operand), visit(predicate)]`. */
  lemma RestrictionShape(v: Val)
    requires ClassOf(v) == Axiom(Restriction)
    ensures VisitAxiom(v).Ok? <==>
      Send(v, "operand").Ok? && Visit(AxiomDialect, Send(v, "operand").value).Ok? &&
      Send(v, "predicate").Ok? && Visit(AxiomDialect, Send(v, "predicate").value).Ok?
    ensures VisitAxiom(v).Ok? ==>
      VisitAxiom(v).value == Arr([Sym("restrict"), Visit(AxiomDialect, Send(v, "operand").value).value,
                                  Visit(AxiomDialect, Send(v, "predicate").value).value])
  {
    assert RuleOf(AxiomDialect, ClassOf(v)) == Rule(BinarySel, ["restrict", "operand", "predicate"]);
    BinaryRule(AxiomDialect, v);
  }

  /** Equality, with the default fields: `[:eq, visit(left), visit(right)]`. */
  lemma EqualityShape(v: Val)
    requires ClassOf(v) == Axiom(Equality)
    ensures VisitAxiom(v).Ok? <==>
      Send(v, "left").Ok? && Visit(AxiomDialect, Send(v, "left").value).Ok? &&
      Send(v, "right").Ok? && Visit(AxiomDialect, Send(v, "right").value).Ok?
    ensures VisitAxiom(v).Ok? ==>
      VisitAxiom(v).value == Arr([Sym("eq"), Visit(AxiomDialect, Send(v, "left").value).value,
                                  Visit(AxiomDialect, Send(v, "right").value).value])
  {
    assert RuleOf(AxiomDialect, ClassOf(v)) == Rule(BinarySel, ["eq"]);
    BinaryRule(AxiomDialect, v);
  }

  /** Ascending and Descending: `[:asc or :desc, visit(attribute)]`. */
  lemma DirectionShape(v: Val)
    requires ClassOf(v) == Axiom(Ascending) || ClassOf(v) == Axiom(Descending)
    ensures VisitAxiom(v).Ok? <==>
      Send(v, "attribute").Ok? && Visit(AxiomDialect, Send(v, "attribute").value).Ok?
    ensures VisitAxiom(v).Ok? ==>
      VisitAxiom(v).value == Arr([Sym(if ClassOf(v) == Axiom(Ascending) then "asc" else "desc"),
                                  Visit(AxiomDialect, Send(v, "attribute").value).value])
  {
    assert RuleOf(AxiomDialect, ClassOf(v)) ==
           Rule(UnarySel, [if ClassOf(v) == Axiom(Ascending) then "asc" else "desc", "attribute"]);
    UnaryRule(AxiomDialect, v);
  }
}
