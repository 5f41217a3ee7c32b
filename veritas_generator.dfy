/** `Veritas::Sexp::Generator`: the generic generator with the veritas registry.

    This module defines neither `static` nor `materialized`, and its `unary`
    reads `operand` when the entry names no field. Every entry of its smaller
    registry can therefore be dispatched, and a visit raises only when a node
    lacks a reader its rule calls.
 */
module VeritasGenerator {
  import opened RubyValues
  import opened Generator
  import opened GeneratorLaws

  /** `REGISTRY`: the rule for each registered class, in the source's order. */
  function Registry(c: ClassName): (entry: Option<Rule>)
  {
    match c
    case Veritas(p) => (
      match p
      case RelationBase          => Some(Rule(BaseSel, []))
      case Order                 => Some(Rule(BinarySel, ["order", "operand", "directions"]))
      case RelationHeader        => Some(Rule(CollectSel, []))
      case DirectionSet          => Some(Rule(CollectSel, []))
      case Ascending             => Some(Rule(UnarySel, ["asc", "attribute"]))
      case Descending            => Some(Rule(UnarySel, ["desc", "attribute"]))
      case Limit                 => Some(Rule(BinarySel, ["limit", "operand", "limit"]))
      case Offset                => Some(Rule(BinarySel, ["offset", "operand", "offset"]))
      case Restriction           => Some(Rule(BinarySel, ["restrict", "operand", "predicate"]))
      case Extension             => Some(Rule(ExtendSel, []))
      case Projection            => Some(Rule(BinarySel, ["project", "operand", "header"]))
      case Join                  => Some(Rule(BinarySel, ["join"]))
      case Product               => Some(Rule(BinarySel, ["product"]))
      case Equality              => Some(Rule(BinarySel, ["eql"]))
      case Absolute              => Some(Rule(BinarySel, ["abs"]))
      case Addition              => Some(Rule(BinarySel, ["add"]))
      case Division              => Some(Rule(BinarySel, ["div"]))
      case Exponentiation        => Some(Rule(BinarySel, ["exp"]))
      case Modulo                => Some(Rule(BinarySel, ["mod"]))
      case Multiplication        => Some(Rule(BinarySel, ["mul"]))
      case SquareRoot            => Some(Rule(UnarySel, ["sqr"]))
      case Subtraction           => Some(Rule(BinarySel, ["sub"]))
      case UnaryMinus            => Some(Rule(UnarySel, ["unary_minus"]))
      case UnaryPlus             => Some(Rule(UnarySel, ["unary_plus"]))
      case AttributeString       => Some(Rule(AttributeSel, []))
      case AttributeInteger      => Some(Rule(AttributeSel, []))
      case _                     => None)
    case _ => None
  }

  /** The classes the veritas registry lists, under `Veritas::`. */
  const VeritasKeys: set<Path> := {
    RelationBase, Order, RelationHeader, DirectionSet, Ascending, Descending, Limit, Offset,
    Restriction, Extension, Projection, Join, Product, Equality, Absolute, Addition, Division,
    Exponentiation, Modulo, Multiplication, SquareRoot, Subtraction, UnaryMinus, UnaryPlus,
    AttributeString, AttributeInteger}

  /** The keys of `REGISTRY` are the twenty-six Veritas classes listed. No
      Axiom class is a key, and neither is a Veritas class it does not list,
      such as the materialized relation or the two propositions. */
  lemma RegistryKeys()
    ensures forall c :: Registry(c).Some? <==> c.Veritas? && c.path in VeritasKeys
  {
    forall c ensures Registry(c).Some? <==> c.Veritas? && c.path in VeritasKeys {
      match c
      case Veritas(p) =>
      case _ =>
    }
  }

  /** The module: no `static`, no `materialized`;
      `unary(relation, tag, operand = :operand)`. */
  const VeritasDialect: Dialect := Dialect(Registry, false, false, Some("operand"))

  /** `visit(relation)` of this module. */
  function VisitVeritas(v: Val): (r: Result<Val>)
    ensures Registry(ClassOf(v)).Some? && r.Ok? ==> r.value.Arr?
  {
    Visit(VeritasDialect, v)
  }

  // ---------------------------------------------------------------------------
  // Every entry can be dispatched
  // ---------------------------------------------------------------------------

  /** The entry of `c` names an interpreter of the module, with an argument
      count that fits it. */
  lemma EntryDispatchable(c: ClassName)
    requires Registered(VeritasDialect, c)
    ensures Dispatchable(VeritasDialect, RuleOf(VeritasDialect, c))
  {
    match c
    case Veritas(p) =>
    case _ =>
  }

  /** No node the registry knows fails at dispatch. */
  lemma AllEntriesDispatchable()
    ensures forall c :: Registered(VeritasDialect, c) ==>
              Dispatchable(VeritasDialect, RuleOf(VeritasDialect, c))
  {
    forall c | Registered(VeritasDialect, c)
      ensures Dispatchable(VeritasDialect, RuleOf(VeritasDialect, c))
    {
      EntryDispatchable(c);
    }
  }

  /** A registered node's own step raises only because a reader it calls
      (or an enumeration it performs) is missing. */
  ghost predicate MissingReader(n: Val)
  {
    && Registered(VeritasDialect, ClassOf(n))
    && Dispatchable(VeritasDialect, RuleOf(VeritasDialect, ClassOf(n)))
    && !ReadsOk(VeritasDialect, n, RuleOf(VeritasDialect, ClassOf(n)))
  }

  /** A visit raises exactly when some node it reaches lacks a reader. */
  lemma VisitFailsIffReaderMissing(v: Val)
    ensures VisitVeritas(v).Err? <==> exists n :: Reaches(VeritasDialect, v, n) && MissingReader(n)
  {
    VisitFailsIffSomeReachedNodeIsMalformed(VeritasDialect, v);
    forall n ensures !LocallyOk(VeritasDialect, n) <==> MissingReader(n) {
      if Registered(VeritasDialect, ClassOf(n)) {
        EntryDispatchable(ClassOf(n));
      }
    }
  }

  // ---------------------------------------------------------------------------
  // The identity fallback
  // ---------------------------------------------------------------------------

  /** Tautology, Contradiction and materialized relations are not keys of
      this registry and pass through unchanged. */
  lemma UnlistedNodesPassThrough(v: Val)
    requires ClassOf(v) == Veritas(Tautology) || ClassOf(v) == Veritas(Contradiction) ||
             ClassOf(v) == Veritas(RelationMaterialized)
    ensures VisitVeritas(v) == Ok(v)
  {
    IdentityFallback(VeritasDialect, v);
  }

  /** Only unregistered values come back unchanged. */
  lemma IdentityOnlyWhenUnregistered(v: Val)
    ensures VisitVeritas(v) == Ok(v) <==> Registry(ClassOf(v)).None?
  {
    IdentityIffUnregistered(VeritasDialect, v);
  }

  // ---------------------------------------------------------------------------
  // Shapes of particular entries
  // ---------------------------------------------------------------------------

  /** Equality is tagged `:eql`: `[:eql, visit(left), visit(right)]`. */
  lemma EqualityShape(v: Val)
    requires ClassOf(v) == Veritas(Equality)
    ensures VisitVeritas(v).Ok? <==>
      Send(v, "left").Ok? && Visit(VeritasDialect, Send(v, "left").value).Ok? &&
      Send(v, "right").Ok? && Visit(VeritasDialect, Send(v, "right").value).Ok?
    ensures VisitVeritas(v).Ok? ==>
      VisitVeritas(v).value == Arr([Sym("eql"), Visit(VeritasDialect, Send(v, "left").value).value,
                                    Visit(VeritasDialect, Send(v, "right").value).value])
  {
    BinaryRule(VeritasDialect, v);
  }

  /** SquareRoot, UnaryMinus and UnaryPlus name no field and read `operand`:
      `[tag, visit(operand)]`. */
  lemma DefaultOperandShape(v: Val)
    requires ClassOf(v) == Veritas(SquareRoot) || ClassOf(v) == Veritas(UnaryMinus) ||
             ClassOf(v) == Veritas(UnaryPlus)
    ensures VisitVeritas(v).Ok? <==>
      Send(v, "operand").Ok? && Visit(VeritasDialect, Send(v, "operand").value).Ok?
    ensures VisitVeritas(v).Ok? ==>
      var tag := match ClassOf(v).path
        case SquareRoot => "sqr"
        case UnaryMinus => "unary_minus"
        case _ => "unary_plus";
      VisitVeritas(v).value == Arr([Sym(tag), Visit(VeritasDialect, Send(v, "operand").value).value])
  {
    assert RuleOf(VeritasDialect, ClassOf(v)).name == UnarySel && |RuleOf(VeritasDialect, ClassOf(v)).options| == 1;
    UnaryRule(VeritasDialect, v);
  }

  /** Ascending and Descending name `attribute` explicitly. */
  lemma DirectionShape(v: Val)
    requires ClassOf(v) == Veritas(Ascending) || ClassOf(v) == Veritas(Descending)
    ensures VisitVeritas(v).Ok? <==>
      Send(v, "attribute").Ok? && Visit(VeritasDialect, Send(v, "attribute").value).Ok?
    ensures VisitVeritas(v).Ok? ==>
      VisitVeritas(v).value == Arr([Sym(if ClassOf(v) == Veritas(Ascending) then "asc" else "desc"),
                                    Visit(VeritasDialect, Send(v, "attribute").value).value])
  {
    UnaryRule(VeritasDialect, v);
  }
}
