/** The Ruby objects the s-expression generator reads and builds.

    The generator reads relational-algebra nodes through `public_send` and
    `map`, and returns plain nested Ruby arrays whose leaves are symbols,
    strings, integers, class objects or whatever object it passed through
    unchanged. One datatype, `Val`, stands for all of them: the input tree and
    the output s-expression are both values of it.
 */
module RubyValues {

  /** The classes of the relational-algebra library that the two registries
      name, relative to the library's top-level namespace (`Relation::Base`
      inside `module Axiom` is `Axiom::Relation::Base`). */
  datatype Path =
    | RelationBase                      // Relation::Base
    | RelationMaterialized              // Relation::Materialized
    | RelationHeader                    // Relation::Header
    | Tuple                             // Tuple (the rows a materialized relation yields)
    | Order                             // Relation::Operation::Order
    | DirectionSet                      // Relation::Operation::Order::DirectionSet
    | Ascending                         // Relation::Operation::Order::Ascending
    | Descending                        // Relation::Operation::Order::Descending
    | Limit                             // Relation::Operation::Limit
    | Offset                            // Relation::Operation::Offset
    | Deletion                          // Relation::Operation::Deletion
    | Insertion                         // Relation::Operation::Insertion
    | Reverse                           // Relation::Operation::Reverse
    | Difference                        // Algebra::Difference
    | Extension                         // Algebra::Extension
    | Intersection                      // Algebra::Intersection
    | Join                              // Algebra::Join
    | Product                           // Algebra::Product
    | Projection                        // Algebra::Projection
    | Rename                            // Algebra::Rename
    | Restriction                       // Algebra::Restriction
    | Summarization                     // Algebra::Summarization
    | Union                             // Algebra::Union
    | Conjunction                       // Function::Connective::Conjunction
    | Disjunction                       // Function::Connective::Disjunction
    | Negation                          // Function::Connective::Negation
    | StringLength                      // Function::String::Length
    | Equality                          // Function::Predicate::Equality
    | Exclusion                         // Function::Predicate::Exclusion
    | GreaterThan                       // Function::Predicate::GreaterThan
    | GreaterThanOrEqualTo              // Function::Predicate::GreaterThanOrEqualTo
    | Inclusion                         // Function::Predicate::Inclusion
    | Inequality                        // Function::Predicate::Inequality
    | LessThan                          // Function::Predicate::LessThan
    | LessThanOrEqualTo                 // Function::Predicate::LessThanOrEqualTo
    | Match                             // Function::Predicate::Match
    | NoMatch                           // Function::Predicate::NoMatch
    | Absolute                          // Function::Numeric::Absolute
    | Addition                          // Function::Numeric::Addition
    | Division                          // Function::Numeric::Division
    | Exponentiation                    // Function::Numeric::Exponentiation
    | Modulo                            // Function::Numeric::Modulo
    | Multiplication                    // Function::Numeric::Multiplication
    | SquareRoot                        // Function::Numeric::SquareRoot
    | Subtraction                       // Function::Numeric::Subtraction
    | UnaryMinus                        // Function::Numeric::UnaryMinus
    | UnaryPlus                         // Function::Numeric::UnaryPlus
    | Tautology                         // Function::Proposition::Tautology
    | Contradiction                     // Function::Proposition::Contradiction
    | AttributeString                   // Attribute::String
    | AttributeInteger                  // Attribute::Integer

  /** A Ruby class, compared by identity: the registries are keyed by the
      exact class of a node (`relation.class`), with no regard to inheritance. */
  datatype ClassName =
    | Axiom(path: Path)                 // a class under Axiom::
    | Veritas(path: Path)               // a class under Veritas::
    | SymbolClass
    | StringClass
    | IntegerClass
    | ClassClass
    | ArrayClass
    | HashClass
    | Named(name: string)               // any other class

  datatype Option<+T> = None | Some(value: T)

  /** A Ruby object.
      - `Obj` is an instance of a library class: `fields` are its public
        readers in lookup order (`public_send(name)` answers the first one of
        that name) and, when it is `enumerable`, `elems` is what its `map`
        enumerates.
      - `Hash` keeps Ruby's insertion order. */
  datatype Val =
    | Sym(name: string)
    | Str(text: string)
    | Int(i: int)
    | ClassRef(cls: ClassName)
    | Arr(items: seq<Val>)
    | Hash(entries: seq<(Val, Val)>)
    | Obj(cls: ClassName, fields: seq<(string, Val)>, enumerable: bool, elems: seq<Val>)

  /** The two Ruby exceptions the generator can raise on its own. */
  datatype Error =
    | NoMethodError(name: string)                          // a method that is not there
    | ArgumentError(name: string, given: nat, min: nat, max: nat) // wrong number of arguments

  datatype Result<+T> = Ok(value: T) | Err(error: Error) {
    predicate IsFailure() { Err? }
    function PropagateFailure<U>(): Result<U> requires Err? { Err(error) }
    function Extract(): T requires Ok? { value }
  }

  /** `v.class`: an object's own class; a built-in value never belongs to a
      library class, so no registry can list it. */
  function ClassOf(v: Val): (c: ClassName)
    ensures v.Obj? ==> c == v.cls
    ensures !v.Obj? ==> !(c.Axiom? || c.Veritas? || c.Named?)
  {
    match v
    case Sym(_) => SymbolClass
    case Str(_) => StringClass
    case Int(_) => IntegerClass
    case ClassRef(_) => ClassClass
    case Arr(_) => ArrayClass
    case Hash(_) => HashClass
    case Obj(c, _, _, _) => c
  }

  /** Index of the first reader called `name`, if there is one. */
  function FieldIndex(fields: seq<(string, Val)>, name: string): (r: Option<nat>)
    ensures r.Some? ==> r.value < |fields| && fields[r.value].0 == name
    ensures r.Some? ==> forall j :: 0 <= j < r.value ==> fields[j].0 != name
    ensures r.None? <==> forall j :: 0 <= j < |fields| ==> fields[j].0 != name
  {
    if fields == [] then None
    else if fields[0].0 == name then Some(0)
    else match FieldIndex(fields[1..], name)
      case None => None
      case Some(k) => Some(k + 1)
  }

  /** `v.public_send(name)`: the value of reader `name`, or NoMethodError. */
  function Send(v: Val, name: string): (r: Result<Val>)
    ensures r.Ok? <==> v.Obj? && exists j :: 0 <= j < |v.fields| && v.fields[j].0 == name
    ensures v.Obj? ==> forall j :: 0 <= j < |v.fields| && v.fields[j].0 == name &&
                                   (forall k :: 0 <= k < j ==> v.fields[k].0 != name) ==>
                                   r == Ok(v.fields[j].1)
    ensures r.Ok? ==> r.value < v
    ensures r.Err? ==> r.error == NoMethodError(name)
  {
    if !v.Obj? then Err(NoMethodError(name))
    else match FieldIndex(v.fields, name)
      case None => Err(NoMethodError(name))
      case Some(j) => assert v.fields[j] in v.fields; Ok(v.fields[j].1)
  }

  /** What `v.map` enumerates: an array's items, or an enumerable object's
      elements; NoMethodError for anything else. */
  function Each(v: Val): (r: Result<seq<Val>>)
    ensures r.Ok? <==> v.Arr? || (v.Obj? && v.enumerable)
    ensures v.Arr? ==> r == Ok(v.items)
    ensures v.Obj? && v.enumerable ==> r == Ok(v.elems)
    ensures r.Ok? ==> forall x <- r.value :: x < v
    ensures r.Err? ==> r.error == NoMethodError("map")
  {
    match v
    case Arr(items) => Ok(items)
    case Obj(_, _, true, elems) => Ok(elems)
    case _ => Err(NoMethodError("map"))
  }

  /** The key/value pairs `hash.map { |k, v| ... }` yields, in insertion order. */
  function Pairs(v: Val): (r: Result<seq<(Val, Val)>>)
    ensures r.Ok? <==> v.Hash?
    ensures v.Hash? ==> r == Ok(v.entries)
    ensures r.Ok? ==> forall p <- r.value :: p.0 < v && p.1 < v
    ensures r.Err? ==> r.error == NoMethodError("map")
  {
    match v
    case Hash(entries) =>
      assert forall p <- entries :: p.0 < v && p.1 < v by {
        forall p <- entries ensures p.0 < v && p.1 < v {
          assert p < v;
        }
      }
      Ok(entries)
    case _ => Err(NoMethodError("map"))
  }

  /** `v.to_ary`: an array is its own array; an object answers its `to_ary`
      reader. */
  function ToAry(v: Val): (r: Result<Val>)
    ensures v.Arr? ==> r == Ok(v)
    ensures r.Ok? <==> v.Arr? || Send(v, "to_ary").Ok?
    ensures r.Err? ==> r.error == NoMethodError("to_ary")
  {
    if v.Arr? then Ok(v) else Send(v, "to_ary")
  }
}
