# axiom-sexp generator, modelled in Dafny

The repository turns a relational-algebra object tree of the Axiom library
(or of its predecessor, Veritas) into an s-expression: nested Ruby arrays of
symbols, strings, integers and class objects. The work is done by
`Axiom::Sexp::Generator.visit` and its near-copy `Veritas::Sexp::Generator.visit`.
Both look the node's exact class up in a constant `REGISTRY`. An
unregistered value comes back unchanged. A registered one is sent to the
interpreter its entry names (`static`, `binary`, `unary`, `collect`,
`extend`, `base`, `materialized`, `attribute`), with the rest of the entry as
extra arguments. The interpreter builds a fresh array and visits only the
children it reads.

The model has one generic engine and two instances:

- `RubyValues` (`ruby_values.dfy`): Ruby values as one datatype `Val`.
  - Nodes are objects with a class, named readers in lookup order and,
    optionally, the elements their `map` enumerates.
  - Hashes keep insertion order.
  - `public_send`, `map` and `to_ary` are total functions returning a
    `Result`. A missing reader is `NoMethodError`.
- `Generator` (`generator.dfy`): `visit`, the dispatch `send(name, relation, *options)`
  and every interpreter, over a `Dialect`. A dialect is a registry plus the
  three points where the two modules differ:
  - whether `static` is defined;
  - whether `materialized` is defined;
  - the default of `unary`'s field parameter.

  Dispatch raises `NoMethodError` for an interpreter the module lacks. It
  raises `ArgumentError` (given, min, max) when the node plus the options do
  not fit the interpreter's parameter list.
- `GeneratorLaws` (`generator_laws.dfy`): what `visit` promises, for any
  dialect.
  - One lemma per interpreter gives its exact output. A companion lemma
    (`BinaryErrors`, `ExtendErrors` and the like) gives the error raised by
    each reader, enumeration or child visit that can fail, in the
    interpreter's evaluation order.
  - An independent, declarative account of failure:
    - `LocallyOk` is the node's own step can run.
    - `Children` are what it visits next.
    - `Reaches` is the visited tree.
  - `visit` succeeds exactly when every node it reaches is locally ok. A bad
    node anywhere makes the whole visit raise, with no partial output.
- `AxiomGenerator` (`axiom_generator.dfy`): the 50-entry axiom registry.
  `static` and `materialized` are defined, and `unary` has no default. Two
  kinds of entry cannot run, and the model keeps them as errors:
  - `[:intersect]` names no interpreter, so it raises `NoMethodError`.
  - The six `unary` entries that give no field call `unary` with two
    arguments where three are needed, so they raise `ArgumentError`.

  Everything else can be dispatched.
- `VeritasGenerator` (`veritas_generator.dfy`): the 26-entry veritas
  registry. There is no `static` or `materialized`, and `unary` defaults its
  field to `operand`.
  - Every entry can be dispatched.
  - Equality is tagged `:eql`.
  - Tautology, Contradiction and materialized relations pass through
    unchanged.
- `AxiomScenarios` (`axiom_scenarios.dfy`): the expected values of the unit
  examples. Each is derived for every choice of relation name, attribute
  name and constant, so the examples' own names are one instance.

## Model

| member | source | states |
|---|---|---|
| `RubyValues.ClassOf` | lib/axiom/sexp/generator.rb:68 | `relation.class` is an object's own class; a symbol, string, integer, class, array or hash never has a library class, so no registry lists it |
| `RubyValues.Send` | lib/axiom/sexp/generator.rb:125 | `public_send(name)` succeeds exactly when the value is an object with a reader of that name, and then answers the first reader of that name; the answer is a strict part of the value; otherwise it raises NoMethodError naming the reader |
| `RubyValues.Each` | lib/axiom/sexp/generator.rb:153-155 | `map` runs exactly on arrays and enumerable objects, yielding an array's items or an object's elements in order; anything else raises NoMethodError for `map` |
| `RubyValues.Pairs` | lib/axiom/sexp/generator.rb:181-183 | a Hash yields its key/value pairs in insertion order; anything else raises NoMethodError for `map` |
| `RubyValues.ToAry` | lib/axiom/sexp/generator.rb:95 | `to_ary` gives an array back unchanged and otherwise succeeds exactly when the value has a `to_ary` reader; it raises NoMethodError for `to_ary` |
| `Generator.MapResult` | lib/axiom/sexp/generator.rb:209-211 | a raising `map`: succeeds exactly when every call does, with one result per element in order; on failure the error is that of the first failing element |
| `Generator.BaseAttribute` | lib/axiom/sexp/generator.rb:223-225 | `[attribute.name, attribute.class]`; succeeds exactly when the attribute has a `name` reader, else NoMethodError for `name` |
| `Generator.BaseHeader` | lib/axiom/sexp/generator.rb:208-212 | one `[name, class]` pair per attribute, in header order, the attributes never visited; succeeds exactly when the header enumerates and every attribute has a `name`; NoMethodError for `map` or `name` otherwise |
| `Generator.Tuples` | lib/axiom/sexp/generator.rb:94-96 | row i is the `to_ary` of tuple i, never visited; succeeds exactly when the relation enumerates and every tuple answers `to_ary`; NoMethodError for `map` or `to_ary` otherwise |
| `Generator.DispatchError` | lib/axiom/sexp/generator.rb:69 | `send` fails before the interpreter runs exactly when the rule is not dispatchable: NoMethodError when the module has no such interpreter, else ArgumentError with the given count and the interpreter's arity range |
| `Generator.Visit` | lib/axiom/sexp/generator.rb:67-70 | a registered node that is visited without error becomes an array |
| `Generator.Interpret` | lib/axiom/sexp/generator.rb:69 | an undispatchable rule raises its dispatch error whatever the node holds; a successful interpretation is an array |
| `Generator.Static` | lib/axiom/sexp/generator.rb:108-110 | `static` never fails and yields a one-element list |
| `Generator.Binary` | lib/axiom/sexp/generator.rb:124-126 | a successful `binary` yields a three-element list headed by the tag |
| `Generator.Unary` | lib/axiom/sexp/generator.rb:139-141 | a successful `unary` yields a two-element list headed by the tag |
| `Generator.Collect` | lib/axiom/sexp/generator.rb:152-156 | a successful `collect` yields a list as long as the enumeration |
| `Generator.VisitAll` | lib/axiom/sexp/generator.rb:153-155 | the block of `collect`: succeeds exactly when every item's visit does, element i being the visit of item i; on failure the error is that of the first item whose visit fails |
| `Generator.Extend` | lib/axiom/sexp/generator.rb:167-169 | a successful `extend` yields a three-element list headed by `:extend` |
| `Generator.Extensions` | lib/axiom/sexp/generator.rb:180-184 | succeeds exactly when every key answers `name` and every expression visits; element i is `[key.name, visit(expression)]` for entry i, in mapping order |
| `Generator.Base` | lib/axiom/sexp/generator.rb:195-197 | a successful `base` yields a three-element list headed by `:base` |
| `Generator.Materialized` | lib/axiom/sexp/generator.rb:81-83 | a successful `materialized` yields a three-element list headed by `:materialized` |
| `Generator.Attribute` | lib/axiom/sexp/generator.rb:237-239 | a successful `attribute` yields a two-element list headed by `:attr` |
| `GeneratorLaws.VisitOkIffSound` | lib/axiom/sexp/generator.rb:67-70 | `visit` succeeds exactly when the node and, recursively, every child its rule visits are locally ok (by induction on the value) |
| `GeneratorLaws.SoundIffAllReachedOk` | lib/axiom/sexp/generator.rb:67-70 | the recursive soundness is the same as every reached node being locally ok (by induction on the value) |
| `GeneratorLaws.VisitFailsIffSomeReachedNodeIsMalformed` | lib/axiom/sexp/generator.rb:67-70 | a visit raises exactly when some node it reaches lacks its interpreter, has the wrong argument count or lacks a reader its rule calls |
| `GeneratorLaws.MalformedNodePropagates` | lib/axiom/sexp/generator.rb:67-70 | one malformed reached node makes the whole visit raise; no failure is swallowed |
| `GeneratorLaws.IdentityFallback` | lib/axiom/sexp/generator.rb:68 | a value whose class is not a registry key is returned unchanged |
| `GeneratorLaws.IdentityIffUnregistered` | lib/axiom/sexp/generator.rb:67-70 | when arrays are not registered, `visit` returns its argument unchanged exactly for unregistered classes |
| `GeneratorLaws.UndispatchableRuleFails` | lib/axiom/sexp/generator.rb:69 | an undispatchable entry raises its dispatch error; a missing interpreter raises NoMethodError naming it |
| `GeneratorLaws.BinaryRule` | lib/axiom/sexp/generator.rb:124-126 | `[tag, visit(node.L), visit(node.R)]` with L, R from the entry or the defaults `left`/`right`; succeeds exactly when both readers exist and both visits succeed; a missing left reader raises NoMethodError for it |
| `GeneratorLaws.BinaryErrors` | lib/axiom/sexp/generator.rb:124-126 | evaluation runs left reader, left visit, right reader, right visit; the first of them to fail gives the error, NoMethodError naming a missing reader |
| `GeneratorLaws.UnaryRule` | lib/axiom/sexp/generator.rb:139-141 | `[tag, visit(node.F)]` with F from the entry or the module's default; succeeds exactly when the reader exists and its visit succeeds |
| `GeneratorLaws.UnaryErrors` | lib/axiom/sexp/generator.rb:139-141 | a missing field reader raises NoMethodError naming it; otherwise a failing child visit is the visit's error |
| `GeneratorLaws.UnaryWithoutFieldFails` | lib/axiom/sexp/generator.rb:139 | a `unary` entry with no field, in a module with no default, raises ArgumentError (2 given, 3 required) |
| `GeneratorLaws.CollectRule` | lib/axiom/sexp/generator.rb:152-156 | succeeds exactly when the node enumerates and every item visits; same length and order, element i the visit of item i |
| `GeneratorLaws.CollectErrors` | lib/axiom/sexp/generator.rb:152-156 | a node that does not enumerate raises NoMethodError for `map`; otherwise the error is that of the first item whose visit fails |
| `GeneratorLaws.ExtendRule` | lib/axiom/sexp/generator.rb:167-184 | `[:extend, visit(operand), E]` where E has one `[key.name, visit(expression)]` per extension, in mapping order |
| `GeneratorLaws.ExtendSucceeds` | lib/axiom/sexp/generator.rb:167-184 | once the operand and the hash are read, extend succeeds exactly when the operand visits, every key answers `name` and every expression visits |
| `GeneratorLaws.ExtendFailsEarly` | lib/axiom/sexp/generator.rb:167-169 | a node without `operand`, without `extensions`, or whose extensions are not a hash, raises |
| `GeneratorLaws.ExtendErrors` | lib/axiom/sexp/generator.rb:167-184 | in evaluation order, a missing `operand` raises NoMethodError for it, a failing operand visit is the error, a missing `extensions` raises NoMethodError for it, a non-Hash raises NoMethodError for `map`, and otherwise the first entry whose key has no `name` or whose expression fails decides the error |
| `GeneratorLaws.ExtensionsFirstFailure` | lib/axiom/sexp/generator.rb:180-184 | a failing `extensions(hash)` raises the error of its first failing entry, every earlier entry having succeeded |
| `GeneratorLaws.BaseRule` | lib/axiom/sexp/generator.rb:195-197 | `[:base, name, H]` with the name as read (not visited) and H the header's pairs |
| `GeneratorLaws.BaseErrors` | lib/axiom/sexp/generator.rb:195-212 | succeeds exactly when `name`, `header` and every attribute's `name` can be read; otherwise NoMethodError for the first missing one of `name`, `header`, the header's `map` and an attribute's `name` |
| `GeneratorLaws.MaterializedRule` | lib/axiom/sexp/generator.rb:81-96 | `[:materialized, H, rows]` with H the header's pairs and row i the `to_ary` of tuple i, never visited |
| `GeneratorLaws.MaterializedErrors` | lib/axiom/sexp/generator.rb:81-96 | succeeds exactly when the header and its names can be read, the relation enumerates and every tuple answers `to_ary`; otherwise NoMethodError for the first missing one of `header`, the header's `map`, an attribute's `name`, the relation's `map` and a tuple's `to_ary` |
| `GeneratorLaws.StaticRule` | lib/axiom/sexp/generator.rb:108-110 | `[tag]` whatever the node holds; never fails |
| `GeneratorLaws.AttributeRule` | lib/axiom/sexp/generator.rb:237-239 | `[:attr, name]`, the name not visited; fails exactly when there is no `name` reader, with NoMethodError for `name` |
| `AxiomGenerator.VisitAxiom` | lib/axiom/sexp/generator.rb:67-70 | the axiom module's `visit`; a registered node visited without error becomes an array |
| `AxiomGenerator.RegistryKeys` | lib/axiom/sexp/generator.rb:6-57 | `REGISTRY.fetch(relation.class)`: the keys are exactly the fifty Axiom classes listed; no Veritas, built-in or other class is a key |
| `AxiomGenerator.BrokenEntriesExactly` | lib/axiom/sexp/generator.rb:6-57 | of all registry entries, exactly Intersection and the six fieldless unary entries cannot be dispatched |
| `AxiomGenerator.BrokenAreRegistered` | lib/axiom/sexp/generator.rb:6-57 | each of those seven classes is a registry key |
| `AxiomGenerator.EntryDispatch` | lib/axiom/sexp/generator.rb:6-57 | entry by entry: undispatchable exactly for the seven broken classes |
| `AxiomGenerator.IntersectionFails` | lib/axiom/sexp/generator.rb:21 | visiting an Intersection raises NoMethodError for `intersect`, whatever it holds |
| `AxiomGenerator.FieldlessUnaryFails` | lib/axiom/sexp/generator.rb:139-141 | Reverse, Negation, Length, SquareRoot, UnaryMinus and UnaryPlus raise ArgumentError (2 given, 3 required) |
| `AxiomGenerator.BrokenNodeFailsVisit` | lib/axiom/sexp/generator.rb:67-70 | a broken node anywhere the visit reaches makes the whole visit raise |
| `AxiomGenerator.BrokenNodeIsMalformed` | lib/axiom/sexp/generator.rb:69 | the own step of a broken node cannot run: `send` raises before any reader is called |
| `AxiomGenerator.UnregisteredUnchanged` | lib/axiom/sexp/generator.rb:68 | symbols, strings, integers, arrays and unregistered objects come back unchanged |
| `AxiomGenerator.IdentityOnlyWhenUnregistered` | lib/axiom/sexp/generator.rb:68 | `visit` returns its argument unchanged exactly when its class is not a key |
| `AxiomGenerator.PropositionsAreStatic` | lib/axiom/sexp/generator.rb:53-54 | Tautology gives `[:true]` and Contradiction `[:false]`, whatever the node holds |
| `AxiomGenerator.RestrictionShape` | lib/axiom/sexp/generator.rb:26 | `[:restrict, visit(operand), visit(predicate)]`, succeeding exactly when both readers exist and both visits succeed |
| `AxiomGenerator.EqualityShape` | lib/axiom/sexp/generator.rb:33 | `[:eq, visit(left), visit(right)]` with the default readers |
| `AxiomGenerator.DirectionShape` | lib/axiom/sexp/generator.rb:12-13 | `[:asc, visit(attribute)]` and `[:desc, visit(attribute)]` |
| `VeritasGenerator.VisitVeritas` | lib/veritas/sexp/generator.rb:45-48 | the veritas module's `visit`; a registered node visited without error becomes an array |
| `VeritasGenerator.RegistryKeys` | lib/veritas/sexp/generator.rb:8-35 | `REGISTRY.fetch(relation.class)`: the keys are exactly the twenty-six Veritas classes listed; no Axiom class is a key |
| `VeritasGenerator.EntryDispatchable` | lib/veritas/sexp/generator.rb:8-35 | every entry names an interpreter of the module with an argument count that fits |
| `VeritasGenerator.AllEntriesDispatchable` | lib/veritas/sexp/generator.rb:8-35 | no registered node fails at dispatch |
| `VeritasGenerator.VisitFailsIffReaderMissing` | lib/veritas/sexp/generator.rb:45-48 | a veritas visit raises exactly when some node it reaches lacks a reader or enumeration its rule needs |
| `VeritasGenerator.UnlistedNodesPassThrough` | lib/veritas/sexp/generator.rb:46 | Tautology, Contradiction and materialized relations come back unchanged |
| `VeritasGenerator.IdentityOnlyWhenUnregistered` | lib/veritas/sexp/generator.rb:46 | `visit` returns its argument unchanged exactly when its class is not a key |
| `VeritasGenerator.EqualityShape` | lib/veritas/sexp/generator.rb:22 | Equality gives `[:eql, visit(left), visit(right)]` |
| `VeritasGenerator.DefaultOperandShape` | lib/veritas/sexp/generator.rb:76-78 | SquareRoot, UnaryMinus and UnaryPlus read `operand`: `[tag, visit(operand)]` with tag `:sqr`, `:unary_minus` or `:unary_plus` |
| `VeritasGenerator.DirectionShape` | lib/veritas/sexp/generator.rb:13-14 | `[:asc, visit(attribute)]` and `[:desc, visit(attribute)]` |
| `AxiomScenarios.TautologyExample` | spec/unit/axiom/sexp/generator/class_methods/visit_spec.rb:23-29 | `[:true]` |
| `AxiomScenarios.ContradictionExample` | spec/unit/axiom/sexp/generator/class_methods/visit_spec.rb:31-37 | `[:false]` |
| `AxiomScenarios.MaterializedExample` | spec/unit/axiom/sexp/generator/class_methods/visit_spec.rb:40-46 | `[:materialized, [[a, Axiom::Attribute::Integer]], [[n]]]` |
| `AxiomScenarios.BaseExample` | spec/unit/axiom/sexp/generator/class_methods/visit_spec.rb:48-54 | `[:base, name, [[a, Axiom::Attribute::Integer]]]` |
| `AxiomScenarios.BaseHeaderExample` | lib/axiom/sexp/generator.rb:208-225 | a one-attribute header becomes `[[a, Axiom::Attribute::Integer]]` |
| `AxiomScenarios.AttributeExample` | lib/axiom/sexp/generator.rb:237-239 | an attribute called `a` becomes `[:attr, a]` |
| `AxiomScenarios.DirectionsExample` | spec/unit/axiom/sexp/generator/class_methods/visit_spec.rb:56-65 | the direction set becomes `[[:asc, [:attr, a]]]` |
| `AxiomScenarios.OrderExample` | spec/unit/axiom/sexp/generator/class_methods/visit_spec.rb:56-65 | `[:order, [:base, …], [[:asc, [:attr, a]]]]` |
| `AxiomScenarios.OffsetExample` | spec/unit/axiom/sexp/generator/class_methods/visit_spec.rb:67-80 | `[:offset, [:order, …], n]`, the integer returned unchanged |
| `AxiomScenarios.LimitExample` | spec/unit/axiom/sexp/generator/class_methods/visit_spec.rb:82-95 | `[:limit, [:order, …], n]` |
| `AxiomScenarios.EqualityExample` | spec/unit/axiom/sexp/generator/class_methods/visit_spec.rb:97-106 | `r.a.eq(s)` becomes `[:eq, [:attr, a], s]` |
| `AxiomScenarios.RestrictionExample` | spec/unit/axiom/sexp/generator/class_methods/visit_spec.rb:97-106 | `[:restrict, [:base, …], [:eq, [:attr, a], s]]` |
| `AxiomScenarios.ProductExample` | spec/unit/axiom/sexp/generator/class_methods/visit_spec.rb:108-117 | `[:product, visit(left), visit(right)]` for any two visitable operands |
| `AxiomScenarios.JoinExample` | spec/unit/axiom/sexp/generator/class_methods/visit_spec.rb:119-128 | `[:join, visit(left), visit(right)]` for any two visitable operands |
| `AxiomScenarios.ProductAndJoinExamples` | spec/unit/axiom/sexp/generator/class_methods/visit_spec.rb:108-128 | product of two base relations and join of one with itself, as the examples expect |
| `AxiomScenarios.ProjectionExample` | spec/unit/axiom/sexp/generator/class_methods/visit_spec.rb:130-139 | `[:project, [:base, …], [[:attr, a]]]`: the projected header goes through `collect` |
| `AxiomScenarios.ExtensionExample` | spec/unit/axiom/sexp/generator/class_methods/visit_spec.rb:141-169 | `[:extend, [:base, …], [[b, visit(expression)]]]` for any visitable expression |
| `AxiomScenarios.PlainExtensionExample` | spec/unit/axiom/sexp/generator/class_methods/visit_spec.rb:142-154 | `[:extend, [:base, …], [[b, [:attr, a]]]]` |
| `AxiomScenarios.TimesExample` | spec/unit/axiom/sexp/generator/class_methods/visit_spec.rb:157 | `r.a * n` becomes `[:mul, [:attr, a], n]` |
| `AxiomScenarios.MultiplicationExtensionExample` | spec/unit/axiom/sexp/generator/class_methods/visit_spec.rb:156-168 | `[:extend, [:base, …], [[b, [:mul, [:attr, a], n]]]]` |

## Left out

- The Axiom and Veritas relational libraries: relation classes, `Header.coerce`, the `restrict`/`sort_by`/`extend`/`take`/`drop` builders and tuple enumeration. A node is an object with a class, stored readers and, if enumerable, its elements. The scenarios write each example's node out by hand.
- Readers are stored values. A reader that computes, raises or has side effects is not modelled.
- Methods of Ruby's built-in values: `public_send`, `map` and `to_ary` on a symbol, string, integer or class raise NoMethodError in the model. Ruby's own methods on those classes (`"s".length`, say) are not modelled.
- `map` over a Hash or over any enumerable other than an array or an enumerable object. A header or relation given as a Hash is reported as NoMethodError. Ruby would yield its pairs.
- `extensions` given something other than a Hash: Ruby's block destructuring of other enumerables is not modelled. Such input is NoMethodError.
- The registry options are plain strings. Ruby passes symbols to `public_send` and puts them in the output, which the model writes as `Sym(tag)`.
- An entry naming some other method of the module (`visit`, `tuples`, `extensions`, `base_header`, `base_attribute`, or a method inherited from `Module`) is not modelled as a dispatch target. No entry of either registry names one. Any selector other than the eight interpreters raises NoMethodError.
- `private_class_method` and public/private visibility.
- `IceNine.deep_freeze` (lib/veritas/sexp/generator.rb:8): the registry is a function, so it is immutable anyway.
- Inheritance: the registries are keyed by exact class, and so is the model. Class objects in the output are opaque tags.
- The text of Ruby's exception messages and backtraces: an error is its class plus the method name and, for ArgumentError, the argument counts.
- Cyclic object graphs and `SystemStackError`: `Val` is a finite tree, so every visit terminates.
- The expected values of `spec/unit/axiom/sexp/generator/class_methods/visit_spec.rb` compare with Ruby's `eql?`. The model compares values structurally.
- Generator.Visit: its own contract gives only that a successful result for a registered node is an array; what a visit yields and when it raises is stated by the rule lemmas of GeneratorLaws and by GeneratorLaws.VisitFailsIffSomeReachedNodeIsMalformed.
- Generator.Interpret: its own contract gives only that a successful result for a registered node is an array; what a visit yields and when it raises is stated by the rule lemmas of GeneratorLaws and by GeneratorLaws.VisitFailsIffSomeReachedNodeIsMalformed.
- AxiomGenerator.VisitAxiom: its own contract gives only that a successful result for a registered node is an array; what a visit yields and when it raises is stated by the rule lemmas of GeneratorLaws and by GeneratorLaws.VisitFailsIffSomeReachedNodeIsMalformed.
- VeritasGenerator.VisitVeritas: its own contract gives only that a successful result for a registered node is an array; what a visit yields and when it raises is stated by the rule lemmas of GeneratorLaws and by GeneratorLaws.VisitFailsIffSomeReachedNodeIsMalformed.
- Generator.Static: its own contract gives only that it succeeds with a one-element list; the full output is stated by GeneratorLaws.StaticRule.
- Generator.Binary: its own contract gives only the length and head of the list; the full output is stated by GeneratorLaws.BinaryRule.
- Generator.Unary: its own contract gives only the length and head of the list; the full output is stated by GeneratorLaws.UnaryRule.
- Generator.Collect: its own contract gives only the length of the list; the full output is stated by GeneratorLaws.CollectRule.
- Generator.Extend: its own contract gives only the length and head of the list; the full output is stated by GeneratorLaws.ExtendRule.
- Generator.Base: its own contract gives only the length and head of the list; the full output is stated by GeneratorLaws.BaseRule.
- Generator.Materialized: its own contract gives only the length and head of the list; the full output is stated by GeneratorLaws.MaterializedRule.
- Generator.Attribute: its own contract gives only the length and head of the list; the full output is stated by GeneratorLaws.AttributeRule.
