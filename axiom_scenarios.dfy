/** The s-expressions of the axiom generator's unit examples, derived from the
    model for every choice of relation name, attribute name and constant.

    Each node is written out as the readers the generator calls on it: an
    attribute answers `name`, a header enumerates its attributes, a base
    relation answers `name` and `header`, and so on. The examples themselves
    use the relation names `name` and `other`, the attributes `foo` and `bar`,
    the string `'bar'` and the integers 1 and 2.
 */
module AxiomScenarios {
  import opened RubyValues
  import opened Generator
  import opened GeneratorLaws
  import opened AxiomGenerator

  // ---------------------------------------------------------------------------
  // Inputs
  // ---------------------------------------------------------------------------

  /** An `Axiom::Attribute::Integer` called `a`. */
  function IntegerAttribute(a: string): (v: Val)
  {
    Obj(Axiom(AttributeInteger), [("name", Sym(a))], false, [])
  }

  /** A header with one attribute. */
  function HeaderOf(attribute: Val): (v: Val)
  {
    Obj(Axiom(RelationHeader), [], true, [attribute])
  }

  /** `Relation::Base.new(name, [[a, Integer]])`; the relation answers its
      name as a string. */
  function BaseRelation(name: string, a: string): (v: Val)
  {
    Obj(Axiom(RelationBase), [("name", Str(name)), ("header", HeaderOf(IntegerAttribute(a)))], false, [])
  }

  /** `r.a.asc` */
  function AscendingOf(a: string): (v: Val)
  {
    Obj(Axiom(Ascending), [("attribute", IntegerAttribute(a))], false, [])
  }

  /** The direction set of `sort_by { |r| [r.a.asc] }`. */
  function DirectionsOf(a: string): (v: Val)
  {
    Obj(Axiom(DirectionSet), [], true, [AscendingOf(a)])
  }

  /** `base_relation.sort_by { |r| [r.a.asc] }` */
  function Sorted(name: string, a: string): (v: Val)
  {
    Obj(Axiom(Order), [("operand", BaseRelation(name, a)), ("directions", DirectionsOf(a))], false, [])
  }

  /** `sorted_base_relation.drop(n)` */
  function Dropped(name: string, a: string, n: int): (v: Val)
  {
    Obj(Axiom(Offset), [("operand", Sorted(name, a)), ("offset", Int(n))], false, [])
  }

  /** `sorted_base_relation.take(n)` */
  function Taken(name: string, a: string, n: int): (v: Val)
  {
    Obj(Axiom(Limit), [("operand", Sorted(name, a)), ("limit", Int(n))], false, [])
  }

  /** `r.a.eq(s)` */
  function Equals(a: string, s: string): (v: Val)
  {
    Obj(Axiom(Equality), [("left", IntegerAttribute(a)), ("right", Str(s))], false, [])
  }

  /** `base_relation.restrict { |r| r.a.eq(s) }` */
  function Restricted(name: string, a: string, s: string): (v: Val)
  {
    Obj(Axiom(Restriction), [("operand", BaseRelation(name, a)), ("predicate", Equals(a, s))], false, [])
  }

  /** `left.product(right)` */
  function ProductOf(left: Val, right: Val): (v: Val)
  {
    Obj(Axiom(Product), [("left", left), ("right", right)], false, [])
  }

  /** `left.join(right)` */
  function JoinOf(left: Val, right: Val): (v: Val)
  {
    Obj(Axiom(Join), [("left", left), ("right", right)], false, [])
  }

  /** `base_relation.project([a])` */
  function Projected(name: string, a: string): (v: Val)
  {
    Obj(Axiom(Projection), [("operand", BaseRelation(name, a)), ("header", HeaderOf(IntegerAttribute(a)))], false, [])
  }

  /** `base_relation.extend { |r| r.add(b, expression) }` */
  function Extended(name: string, a: string, b: string, expression: Val): (v: Val)
  {
    Obj(Axiom(Extension),
        [("operand", BaseRelation(name, a)), ("extensions", Hash([(IntegerAttribute(b), expression)]))],
        false, [])
  }

  /** `r.a * n` */
  function Times(a: string, n: int): (v: Val)
  {
    Obj(Axiom(Multiplication), [("left", IntegerAttribute(a)), ("right", Int(n))], false, [])
  }

  /** `Relation.new([[a, Integer]], [[n]])`: a materialized relation with one
      tuple. */
  function OneRow(a: string, n: int): (v: Val)
  {
    Obj(Axiom(RelationMaterialized), [("header", HeaderOf(IntegerAttribute(a)))], true,
        [Obj(Axiom(Tuple), [("to_ary", Arr([Int(n)]))], false, [])])
  }

  // ---------------------------------------------------------------------------
  // Expected outputs
  // ---------------------------------------------------------------------------

  /** `[:attr, a]` */
  function AttrSexp(a: string): (v: Val)
  {
    Arr([Sym("attr"), Sym(a)])
  }

  /** `[[a, Axiom::Attribute::Integer]]` */
  function HeaderSexp(a: string): (v: Val)
  {
    Arr([Arr([Sym(a), ClassRef(Axiom(AttributeInteger))])])
  }

  /** `[:base, name, [[a, Axiom::Attribute::Integer]]]` */
  function BaseSexp(name: string, a: string): (v: Val)
  {
    Arr([Sym("base"), Str(name), HeaderSexp(a)])
  }

  /** `[:order, base, [[:asc, [:attr, a]]]]` */
  function SortedSexp(name: string, a: string): (v: Val)
  {
    Arr([Sym("order"), BaseSexp(name, a), Arr([Arr([Sym("asc"), AttrSexp(a)])])])
  }

  // ---------------------------------------------------------------------------
  // Helpers
  // ---------------------------------------------------------------------------

  /** A binary entry applied to a node whose two readers are there. */
  lemma BinaryExample(v: Val, l: Val, r: Val, ls: Val, rs: Val)
    requires Registered(AxiomDialect, ClassOf(v)) && RuleOf(AxiomDialect, ClassOf(v)).name == BinarySel
    requires var o := RuleOf(AxiomDialect, ClassOf(v)).options;
      1 <= |o| <= 3 && Send(v, LeftField(o)) == Ok(l) && Send(v, RightField(o)) == Ok(r)
    requires VisitAxiom(l) == Ok(ls) && VisitAxiom(r) == Ok(rs)
    ensures VisitAxiom(v) == Ok(Arr([Sym(RuleOf(AxiomDialect, ClassOf(v)).options[0]), ls, rs]))
  {
    BinaryRule(AxiomDialect, v);
  }

  /** A collect entry applied to a one-element enumerable. */
  lemma CollectOne(v: Val, x: Val, xs: Val)
    requires Registered(AxiomDialect, ClassOf(v)) && RuleOf(AxiomDialect, ClassOf(v)).name == CollectSel
    requires Each(v) == Ok([x]) && VisitAxiom(x) == Ok(xs)
    ensures VisitAxiom(v) == Ok(Arr([xs]))
  {
    CollectRule(AxiomDialect, v);
    var out := VisitAxiom(v).value.items;
    assert [x][0] == x;
    assert out == [out[0]];
  }

  lemma BaseHeaderExample(a: string)
    ensures BaseHeader(HeaderOf(IntegerAttribute(a))) == Ok(HeaderSexp(a).items)
  {
    var attribute := IntegerAttribute(a);
    assert Send(attribute, "name") == Ok(attribute.fields[0].1);
    assert BaseAttribute(attribute) == Ok(Arr([Sym(a), ClassRef(Axiom(AttributeInteger))]));
    assert Each(HeaderOf(attribute)) == Ok([attribute]);
    var r := MapResult(BaseAttribute, [attribute]);
    assert [attribute][0] == attribute;
    assert r.Ok? && |r.value| == 1;
    assert r.value == [r.value[0]];
  }

  // ---------------------------------------------------------------------------
  // The examples
  // ---------------------------------------------------------------------------

  lemma AttributeExample(a: string)
    ensures VisitAxiom(IntegerAttribute(a)) == Ok(AttrSexp(a))
  {
    AttributeRule(AxiomDialect, IntegerAttribute(a));
  }

  lemma BaseExample(name: string, a: string)
    ensures VisitAxiom(BaseRelation(name, a)) == Ok(BaseSexp(name, a))
  {
    var v := BaseRelation(name, a);
    Dispatch(AxiomDialect, v);
    BaseHeaderExample(a);
    assert Send(v, "name") == Ok(v.fields[0].1);
    assert Send(v, "header") == Ok(v.fields[1].1);
  }

  lemma TautologyExample()
    ensures VisitAxiom(Obj(Axiom(Tautology), [], false, [])) == Ok(Arr([Sym("true")]))
  {
    PropositionsAreStatic(Obj(Axiom(Tautology), [], false, []));
  }

  lemma ContradictionExample()
    ensures VisitAxiom(Obj(Axiom(Contradiction), [], false, [])) == Ok(Arr([Sym("false")]))
  {
    PropositionsAreStatic(Obj(Axiom(Contradiction), [], false, []));
  }

  lemma DirectionsExample(a: string)
    ensures VisitAxiom(DirectionsOf(a)) == Ok(Arr([Arr([Sym("asc"), AttrSexp(a)])]))
  {
    assert Send(AscendingOf(a), "attribute") == Ok(AscendingOf(a).fields[0].1);
    AttributeExample(a);
    DirectionShape(AscendingOf(a));
    CollectOne(DirectionsOf(a), AscendingOf(a), Arr([Sym("asc"), AttrSexp(a)]));
  }

  lemma OrderExample(name: string, a: string)
    ensures VisitAxiom(Sorted(name, a)) == Ok(SortedSexp(name, a))
  {
    var v := Sorted(name, a);
    assert Send(v, "operand") == Ok(v.fields[0].1);
    assert Send(v, "directions") == Ok(v.fields[1].1);
    BaseExample(name, a);
    DirectionsExample(a);
    BinaryExample(v, BaseRelation(name, a), DirectionsOf(a), BaseSexp(name, a), Arr([Arr([Sym("asc"), AttrSexp(a)])]));
  }

  /** The offset is an integer, which the identity fallback returns unchanged. */
  lemma OffsetExample(name: string, a: string, n: int)
    ensures VisitAxiom(Dropped(name, a, n)) == Ok(Arr([Sym("offset"), SortedSexp(name, a), Int(n)]))
  {
    var v := Dropped(name, a, n);
    assert Send(v, "operand") == Ok(v.fields[0].1);
    assert Send(v, "offset") == Ok(v.fields[1].1);
    OrderExample(name, a);
    UnregisteredUnchanged(Int(n));
    BinaryExample(v, Sorted(name, a), Int(n), SortedSexp(name, a), Int(n));
  }

  lemma LimitExample(name: string, a: string, n: int)
    ensures VisitAxiom(Taken(name, a, n)) == Ok(Arr([Sym("limit"), SortedSexp(name, a), Int(n)]))
  {
    var v := Taken(name, a, n);
    assert Send(v, "operand") == Ok(v.fields[0].1);
    assert Send(v, "limit") == Ok(v.fields[1].1);
    OrderExample(name, a);
    UnregisteredUnchanged(Int(n));
    BinaryExample(v, Sorted(name, a), Int(n), SortedSexp(name, a), Int(n));
  }

  lemma EqualityExample(a: string, s: string)
    ensures VisitAxiom(Equals(a, s)) == Ok(Arr([Sym("eq"), AttrSexp(a), Str(s)]))
  {
    var v := Equals(a, s);
    assert RuleOf(AxiomDialect, ClassOf(v)) == Rule(BinarySel, ["eq"]);
    assert Send(v, "left") == Ok(v.fields[0].1);
    assert Send(v, "right") == Ok(v.fields[1].1);
    AttributeExample(a);
    UnregisteredUnchanged(Str(s));
    BinaryExample(v, IntegerAttribute(a), Str(s), AttrSexp(a), Str(s));
  }

  lemma RestrictionExample(name: string, a: string, s: string)
    ensures VisitAxiom(Restricted(name, a, s)) ==
            Ok(Arr([Sym("restrict"), BaseSexp(name, a), Arr([Sym("eq"), AttrSexp(a), Str(s)])]))
  {
    var v := Restricted(name, a, s);
    assert Send(v, "operand") == Ok(v.fields[0].1);
    assert Send(v, "predicate") == Ok(v.fields[1].1);
    BaseExample(name, a);
    EqualityExample(a, s);
    BinaryExample(v, BaseRelation(name, a), Equals(a, s), BaseSexp(name, a), Arr([Sym("eq"), AttrSexp(a), Str(s)]));
  }

  /** Product and join read the default `left` and `right`. */
  lemma ProductExample(left: Val, right: Val, ls: Val, rs: Val)
    requires VisitAxiom(left) == Ok(ls) && VisitAxiom(right) == Ok(rs)
    ensures VisitAxiom(ProductOf(left, right)) == Ok(Arr([Sym("product"), ls, rs]))
  {
    var v := ProductOf(left, right);
    assert Send(v, "left") == Ok(v.fields[0].1);
    assert Send(v, "right") == Ok(v.fields[1].1);
    BinaryExample(v, left, right, ls, rs);
  }

  lemma JoinExample(left: Val, right: Val, ls: Val, rs: Val)
    requires VisitAxiom(left) == Ok(ls) && VisitAxiom(right) == Ok(rs)
    ensures VisitAxiom(JoinOf(left, right)) == Ok(Arr([Sym("join"), ls, rs]))
  {
    var v := JoinOf(left, right);
    assert Send(v, "left") == Ok(v.fields[0].1);
    assert Send(v, "right") == Ok(v.fields[1].1);
    BinaryExample(v, left, right, ls, rs);
  }

  /** `base_relation.product(other_base_relation)` and
      `base_relation.join(base_relation)`. */
  lemma ProductAndJoinExamples(name: string, a: string, other: string, b: string)
    ensures VisitAxiom(ProductOf(BaseRelation(name, a), BaseRelation(other, b))) ==
            Ok(Arr([Sym("product"), BaseSexp(name, a), BaseSexp(other, b)]))
    ensures VisitAxiom(JoinOf(BaseRelation(name, a), BaseRelation(name, a))) ==
            Ok(Arr([Sym("join"), BaseSexp(name, a), BaseSexp(name, a)]))
  {
    BaseExample(name, a);
    BaseExample(other, b);
    ProductExample(BaseRelation(name, a), BaseRelation(other, b), BaseSexp(name, a), BaseSexp(other, b));
    JoinExample(BaseRelation(name, a), BaseRelation(name, a), BaseSexp(name, a), BaseSexp(name, a));
  }

  /** The projected header goes through `collect`, so its attribute is
      visited: `[[:attr, a]]`. */
  lemma ProjectionExample(name: string, a: string)
    ensures VisitAxiom(Projected(name, a)) == Ok(Arr([Sym("project"), BaseSexp(name, a), Arr([AttrSexp(a)])]))
  {
    var v, h := Projected(name, a), HeaderOf(IntegerAttribute(a));
    AttributeExample(a);
    CollectOne(h, IntegerAttribute(a), AttrSexp(a));
    assert Send(v, "operand") == Ok(v.fields[0].1);
    assert Send(v, "header") == Ok(v.fields[1].1);
    BaseExample(name, a);
    BinaryExample(v, BaseRelation(name, a), h, BaseSexp(name, a), Arr([AttrSexp(a)]));
  }

  /** An extend entry applied to a node with one extension. */
  lemma ExtendOne(v: Val, operand: Val, os: Val, key: Val, k: Val, expression: Val, es: Val)
    requires HasRule(AxiomDialect, v, ExtendSel)
    requires Send(v, "operand") == Ok(operand) && VisitAxiom(operand) == Ok(os)
    requires Send(v, "extensions") == Ok(Hash([(key, expression)]))
    requires Send(key, "name") == Ok(k) && VisitAxiom(expression) == Ok(es)
    ensures VisitAxiom(v) == Ok(Arr([Sym("extend"), os, Arr([Arr([k, es])])]))
  {
    Dispatch(AxiomDialect, v);
    var ps := [(key, expression)];
    assert Pairs(Hash(ps)) == Ok(ps);
    assert ps[0].0 == key && ps[0].1 == expression;
    var r := Extensions(AxiomDialect, v, ps);
    assert r.Ok? && |r.value| == 1;
    assert r.value == [Arr([k, es])];
  }

  /** An extension by `expression`, whose s-expression is `es`. */
  lemma ExtensionExample(name: string, a: string, b: string, expression: Val, es: Val)
    requires VisitAxiom(expression) == Ok(es)
    ensures VisitAxiom(Extended(name, a, b, expression)) ==
            Ok(Arr([Sym("extend"), BaseSexp(name, a), Arr([Arr([Sym(b), es])])]))
  {
    var v := Extended(name, a, b, expression);
    assert RuleOf(AxiomDialect, ClassOf(v)) == Rule(ExtendSel, []);
    assert Send(v, "operand") == Ok(v.fields[0].1);
    assert Send(v, "extensions") == Ok(v.fields[1].1);
    assert Send(IntegerAttribute(b), "name") == Ok(IntegerAttribute(b).fields[0].1);
    BaseExample(name, a);
    ExtendOne(v, BaseRelation(name, a), BaseSexp(name, a), IntegerAttribute(b), Sym(b), expression, es);
  }

  lemma PlainExtensionExample(name: string, a: string, b: string)
    ensures VisitAxiom(Extended(name, a, b, IntegerAttribute(a))) ==
            Ok(Arr([Sym("extend"), BaseSexp(name, a), Arr([Arr([Sym(b), AttrSexp(a)])])]))
  {
    AttributeExample(a);
    ExtensionExample(name, a, b, IntegerAttribute(a), AttrSexp(a));
  }

  /** `r.a * n`: `[:mul, [:attr, a], n]` */
  lemma TimesExample(a: string, n: int)
    ensures VisitAxiom(Times(a, n)) == Ok(Arr([Sym("mul"), AttrSexp(a), Int(n)]))
  {
    var t := Times(a, n);
    assert RuleOf(AxiomDialect, ClassOf(t)) == Rule(BinarySel, ["mul"]);
    assert Send(t, "left") == Ok(t.fields[0].1);
    assert Send(t, "right") == Ok(t.fields[1].1);
    AttributeExample(a);
    UnregisteredUnchanged(Int(n));
    BinaryExample(t, IntegerAttribute(a), Int(n), AttrSexp(a), Int(n));
  }

  lemma MultiplicationExtensionExample(name: string, a: string, b: string, n: int)
    ensures VisitAxiom(Extended(name, a, b, Times(a, n))) ==
            Ok(Arr([Sym("extend"), BaseSexp(name, a), Arr([Arr([Sym(b), Arr([Sym("mul"), AttrSexp(a), Int(n)])])])]))
  {
    TimesExample(a, n);
    ExtensionExample(name, a, b, Times(a, n), Arr([Sym("mul"), AttrSexp(a), Int(n)]));
  }
  /** The header becomes `[name, class]` pairs and the tuple its raw array,
      neither visited. */
  lemma MaterializedExample(a: string, n: int)
    ensures VisitAxiom(OneRow(a, n)) == Ok(Arr([Sym("materialized"), HeaderSexp(a), Arr([Arr([Int(n)])])]))
  {
    var v := OneRow(a, n);
    var t := v.elems[0];
    Dispatch(AxiomDialect, v);
    assert Send(v, "header") == Ok(v.fields[0].1);
    assert Send(t, "to_ary") == Ok(t.fields[0].1);
    BaseHeaderExample(a);
    assert Each(v) == Ok([t]);
    var rows := MapResult(ToAry, [t]);
    assert [t][0] == t;
    assert rows.Ok? && |rows.value| == 1;
    assert rows.value == [rows.value[0]];
  }
}
