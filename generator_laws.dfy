/** What the generator promises, stated against the model in `Generator`.

    Besides one lemma per rule interpreter, this module gives an independent,
    declarative account of when `visit` raises: a node is `LocallyOk` when its
    own rule can run (the interpreter exists, the argument count fits, every
    reader the rule calls is there), `Children` are the values the rule visits
    next, and `VisitFailsIffSomeReachedNodeIsMalformed` says a visit raises
    exactly when some node it reaches is not locally ok. No failure is ever
    downgraded and no partial output is produced.
 */
module GeneratorLaws {
  import opened RubyValues
  import opened Generator

  // ---------------------------------------------------------------------------
  // A declarative reference: local well-formedness and the visited children
  // ---------------------------------------------------------------------------

  /** `header.map { |attribute| attribute.name }` can run. */
  ghost predicate HeaderOk(header: Val)
  {
    Each(header).Ok? && forall a <- Each(header).value :: Send(a, "name").Ok?
  }

  /** Every key of an extension mapping answers `name`. */
  ghost predicate ExtensionNamesOk(ps: seq<(Val, Val)>)
  {
    forall i :: 0 <= i < |ps| ==> Send(ps[i].0, "name").Ok?
  }

  /** Every reader, enumeration and call the node's own rule performs, apart
      from the visits of its children, succeeds. */
  ghost predicate ReadsOk(d: Dialect, v: Val, rule: Rule)
    requires Dispatchable(d, rule)
  {
    var name, o := rule.name, rule.options;
    if name == StaticSel then true
    else if name == BinarySel then Send(v, LeftField(o)).Ok? && Send(v, RightField(o)).Ok?
    else if name == UnarySel then Send(v, UnaryField(d, o)).Ok?
    else if name == CollectSel then Each(v).Ok?
    else if name == ExtendSel then
      && Send(v, "operand").Ok?
      && Send(v, "extensions").Ok?
      && Pairs(Send(v, "extensions").value).Ok?
      && ExtensionNamesOk(Pairs(Send(v, "extensions").value).value)
    else if name == BaseSel then
      Send(v, "name").Ok? && Send(v, "header").Ok? && HeaderOk(Send(v, "header").value)
    else if name == MaterializedSel then
      && Send(v, "header").Ok? && HeaderOk(Send(v, "header").value)
      && Each(v).Ok? && forall t <- Each(v).value :: ToAry(t).Ok?
    else Send(v, "name").Ok?
  }

  /** The node's own step cannot raise: an unregistered value never does, a
      registered one needs a dispatchable rule whose reads all succeed. */
  ghost predicate LocallyOk(d: Dialect, v: Val)
  {
    Registered(d, ClassOf(v)) ==>
      Dispatchable(d, RuleOf(d, ClassOf(v))) && ReadsOk(d, v, RuleOf(d, ClassOf(v)))
  }

  /** The values the node's rule passes to `visit`, in the order it visits them. */
  ghost function Children(d: Dialect, v: Val): (cs: seq<Val>)
    requires LocallyOk(d, v)
    ensures forall i :: 0 <= i < |cs| ==> cs[i] < v
  {
    if !Registered(d, ClassOf(v)) then []
    else
      var rule := RuleOf(d, ClassOf(v));
      var name, o := rule.name, rule.options;
      if name == BinarySel then [Send(v, LeftField(o)).value, Send(v, RightField(o)).value]
      else if name == UnarySel then [Send(v, UnaryField(d, o)).value]
      else if name == CollectSel then Each(v).value
      else if name == ExtendSel then
        var ps := Pairs(Send(v, "extensions").value).value;
        [Send(v, "operand").value] + ExpressionsOf(ps)
      else []
  }

  /** The defining expressions of an extension mapping, in order. */
  ghost function ExpressionsOf(ps: seq<(Val, Val)>): (es: seq<Val>)
    ensures |es| == |ps| && forall i :: 0 <= i < |ps| ==> es[i] == ps[i].1
  {
    seq(|ps|, i requires 0 <= i < |ps| => ps[i].1)
  }

  /** Every node the visit reaches is locally ok. */
  ghost predicate Sound(d: Dialect, v: Val)
    decreases v
  {
    LocallyOk(d, v) && forall i :: 0 <= i < |Children(d, v)| ==> Sound(d, Children(d, v)[i])
  }

  /** `n` is `v` itself or reached from one of its children. */
  ghost predicate Reaches(d: Dialect, v: Val, n: Val)
    decreases v
  {
    n == v ||
    (LocallyOk(d, v) && exists i :: 0 <= i < |Children(d, v)| && Reaches(d, Children(d, v)[i], n))
  }

  /** A registered node with a dispatchable rule goes to the interpreter its
      rule names. */
  lemma Dispatch(d: Dialect, v: Val)
    requires Registered(d, ClassOf(v)) && Dispatchable(d, RuleOf(d, ClassOf(v)))
    ensures var rule := RuleOf(d, ClassOf(v));
      var name, o := rule.name, rule.options;
      && (name == StaticSel ==> Visit(d, v) == Static(o[0]))
      && (name == BinarySel ==> Visit(d, v) == Binary(d, v, o))
      && (name == UnarySel ==> Visit(d, v) == Unary(d, v, o))
      && (name == CollectSel ==> Visit(d, v) == Collect(d, v))
      && (name == ExtendSel ==> Visit(d, v) == Extend(d, v))
      && (name == BaseSel ==> Visit(d, v) == Base(v))
      && (name == MaterializedSel ==> Visit(d, v) == Materialized(v))
      && (name == AttributeSel ==> Visit(d, v) == Attribute(v))
  {
    var rule := RuleOf(d, ClassOf(v));
    assert Visit(d, v) == Interpret(d, v, rule);
  }

  // ---------------------------------------------------------------------------
  // Visit against the reference
  // ---------------------------------------------------------------------------

  lemma BaseAttributesOk(attributes: seq<Val>)
    ensures MapResult(BaseAttribute, attributes).Ok? <==>
            forall a <- attributes :: Send(a, "name").Ok?
  {
    assert forall i :: 0 <= i < |attributes| ==>
      (BaseAttribute(attributes[i]).Ok? <==> Send(attributes[i], "name").Ok?);
  }

  lemma TuplesOk(rows: seq<Val>)
    ensures MapResult(ToAry, rows).Ok? <==> forall t <- rows :: ToAry(t).Ok?
  {
  }

  /** One step of `visit`: it succeeds exactly when the node is locally ok
      and the visits of all its children succeed. */
  ghost predicate StepHolds(d: Dialect, v: Val)
  {
    Visit(d, v).Ok? <==>
      LocallyOk(d, v) && forall i :: 0 <= i < |Children(d, v)| ==> Visit(d, Children(d, v)[i]).Ok?
  }

  lemma VisitStep(d: Dialect, v: Val)
    ensures StepHolds(d, v)
  {
    if Registered(d, ClassOf(v)) {
      var rule := RuleOf(d, ClassOf(v));
      if Dispatchable(d, rule) {
        var name := rule.name;
        if name == BinarySel {
          StepBinary(d, v);
        } else if name == UnarySel {
          StepUnary(d, v);
        } else if name == CollectSel {
          StepCollect(d, v);
        } else if name == ExtendSel {
          StepExtend(d, v);
        } else {
          StepLeaf(d, v);
        }
      }
    }
  }

  lemma StepBinary(d: Dialect, v: Val)
    requires HasRule(d, v, BinarySel)
    ensures StepHolds(d, v)
  {
    Dispatch(d, v);
    var o := RuleOf(d, ClassOf(v)).options;
    var l, r := Send(v, LeftField(o)), Send(v, RightField(o));
    assert Visit(d, v).Ok? <==> l.Ok? && Visit(d, l.value).Ok? && r.Ok? && Visit(d, r.value).Ok?;
    assert LocallyOk(d, v) <==> l.Ok? && r.Ok?;
    if l.Ok? && r.Ok? {
      var cs := Children(d, v);
      assert cs == [l.value, r.value];
      assert cs[0] == l.value && cs[1] == r.value;
    }
  }

  lemma StepUnary(d: Dialect, v: Val)
    requires HasRule(d, v, UnarySel)
    ensures StepHolds(d, v)
  {
    Dispatch(d, v);
    var o := RuleOf(d, ClassOf(v)).options;
    var f := Send(v, UnaryField(d, o));
    assert Visit(d, v).Ok? <==> f.Ok? && Visit(d, f.value).Ok?;
    assert LocallyOk(d, v) <==> f.Ok?;
    if f.Ok? {
      var cs := Children(d, v);
      assert cs == [f.value];
      assert cs[0] == f.value;
    }
  }

  lemma StepCollect(d: Dialect, v: Val)
    requires HasRule(d, v, CollectSel)
    ensures StepHolds(d, v)
  {
    Dispatch(d, v);
    if Each(v).Ok? {
      assert Children(d, v) == Each(v).value;
    }
  }

  lemma StepExtend(d: Dialect, v: Val)
    requires HasRule(d, v, ExtendSel)
    ensures StepHolds(d, v)
  {
    ExtendReads(d, v);
    var op, ext := Send(v, "operand"), Send(v, "extensions");
    if op.Ok? && ext.Ok? && Pairs(ext.value).Ok? {
      ExtendSucceeds(d, v);
      if LocallyOk(d, v) {
        ExtendChildrenVisited(d, v);
      }
    } else {
      ExtendFailsEarly(d, v);
    }
  }

  lemma ExtendChildrenVisited(d: Dialect, v: Val)
    requires HasRule(d, v, ExtendSel) && LocallyOk(d, v)
    ensures var cs, ps := Children(d, v), Pairs(Send(v, "extensions").value).value;
      (forall i :: 0 <= i < |cs| ==> Visit(d, cs[i]).Ok?) <==>
      Visit(d, Send(v, "operand").value).Ok? && forall i :: 0 <= i < |ps| ==> Visit(d, ps[i].1).Ok?
  {
    var ps := Pairs(Send(v, "extensions").value).value;
    ExtendChildren(d, v);
    AllVisitedCons(d, Send(v, "operand").value, ExpressionsOf(ps));
  }

  /** Visiting `[x] + es` succeeds item by item exactly when visiting `x` and
      every item of `es` does. */
  lemma AllVisitedCons(d: Dialect, x: Val, es: seq<Val>)
    ensures var cs := [x] + es;
      (forall i :: 0 <= i < |cs| ==> Visit(d, cs[i]).Ok?) <==>
      Visit(d, x).Ok? && forall i :: 0 <= i < |es| ==> Visit(d, es[i]).Ok?
  {
    var cs := [x] + es;
    assert cs[0] == x;
    if forall i :: 0 <= i < |cs| ==> Visit(d, cs[i]).Ok? {
      forall i | 0 <= i < |es| ensures Visit(d, es[i]).Ok? {
        assert cs[i + 1] == es[i];
      }
    }
    if Visit(d, x).Ok? && forall i :: 0 <= i < |es| ==> Visit(d, es[i]).Ok? {
      forall i | 0 <= i < |cs| ensures Visit(d, cs[i]).Ok? {
        if i > 0 {
          assert cs[i] == es[i - 1];
        }
      }
    }
  }

  lemma ExtendFailsEarly(d: Dialect, v: Val)
    requires HasRule(d, v, ExtendSel)
    requires !(Send(v, "operand").Ok? && Send(v, "extensions").Ok? && Pairs(Send(v, "extensions").value).Ok?)
    ensures Visit(d, v).Err?
  {
    Dispatch(d, v);
  }

  /** What the extend rule reads before visiting anything. */
  lemma ExtendReads(d: Dialect, v: Val)
    requires HasRule(d, v, ExtendSel)
    ensures LocallyOk(d, v) <==>
      && Send(v, "operand").Ok? && Send(v, "extensions").Ok? && Pairs(Send(v, "extensions").value).Ok?
      && ExtensionNamesOk(Pairs(Send(v, "extensions").value).value)
  {
  }

  lemma ExtendSucceeds(d: Dialect, v: Val)
    requires HasRule(d, v, ExtendSel)
    requires Send(v, "operand").Ok? && Send(v, "extensions").Ok? && Pairs(Send(v, "extensions").value).Ok?
    ensures var ps := Pairs(Send(v, "extensions").value).value;
      Visit(d, v).Ok? <==>
        && Visit(d, Send(v, "operand").value).Ok?
        && ExtensionNamesOk(ps)
        && (forall i :: 0 <= i < |ps| ==> Visit(d, ps[i].1).Ok?)
  {
    Dispatch(d, v);
    var ps := Pairs(Send(v, "extensions").value).value;
    var ex := Extensions(d, v, ps);
    assert Extend(d, v).Ok? <==> Visit(d, Send(v, "operand").value).Ok? && ex.Ok?;
  }

  lemma ExtendChildren(d: Dialect, v: Val)
    requires HasRule(d, v, ExtendSel) && LocallyOk(d, v)
    ensures Children(d, v) == [Send(v, "operand").value] + ExpressionsOf(Pairs(Send(v, "extensions").value).value)
  {
  }

  /** The rules that visit no child: static, base, materialized, attribute. */
  lemma StepLeaf(d: Dialect, v: Val)
    requires Registered(d, ClassOf(v)) && Dispatchable(d, RuleOf(d, ClassOf(v)))
    requires RuleOf(d, ClassOf(v)).name !in {BinarySel, UnarySel, CollectSel, ExtendSel}
    ensures StepHolds(d, v)
  {
    Dispatch(d, v);
    if Send(v, "header").Ok? && Each(Send(v, "header").value).Ok? {
      BaseAttributesOk(Each(Send(v, "header").value).value);
    }
    if Each(v).Ok? {
      TuplesOk(Each(v).value);
    }
  }

  /** `visit` succeeds exactly on sound trees. */
  lemma {:induction false} VisitOkIffSound(d: Dialect, v: Val)
    ensures Visit(d, v).Ok? <==> Sound(d, v)
    decreases v
  {
    VisitStep(d, v);
    if LocallyOk(d, v) {
      var cs := Children(d, v);
      forall i | 0 <= i < |cs| ensures Visit(d, cs[i]).Ok? <==> Sound(d, cs[i]) {
        VisitOkIffSound(d, cs[i]);
      }
    }
  }

  /** Soundness is the same as every reached node being locally ok. */
  lemma {:induction false} SoundIffAllReachedOk(d: Dialect, v: Val)
    ensures Sound(d, v) <==> forall n :: Reaches(d, v, n) ==> LocallyOk(d, n)
    decreases v
  {
    if LocallyOk(d, v) {
      var cs := Children(d, v);
      forall i | 0 <= i < |cs|
        ensures Sound(d, cs[i]) <==> forall n :: Reaches(d, cs[i], n) ==> LocallyOk(d, n)
      {
        SoundIffAllReachedOk(d, cs[i]);
      }
      if Sound(d, v) {
        forall n | Reaches(d, v, n) ensures LocallyOk(d, n) {
          if n != v {
            var i :| 0 <= i < |cs| && Reaches(d, cs[i], n);
          }
        }
      } else {
        var i :| 0 <= i < |cs| && !Sound(d, cs[i]);
        var n :| Reaches(d, cs[i], n) && !LocallyOk(d, n);
        assert Reaches(d, v, n);
      }
    } else {
      assert Reaches(d, v, v);
    }
  }

  /** A visit raises exactly when some node it reaches is malformed: the
      interpreter is missing, the argument count does not fit, or a reader
      the rule calls is not there. */
  lemma VisitFailsIffSomeReachedNodeIsMalformed(d: Dialect, v: Val)
    ensures Visit(d, v).Err? <==> exists n :: Reaches(d, v, n) && !LocallyOk(d, n)
  {
    VisitOkIffSound(d, v);
    SoundIffAllReachedOk(d, v);
  }

  /** A malformed node anywhere in the reached tree poisons the whole visit. */
  lemma MalformedNodePropagates(d: Dialect, v: Val, n: Val)
    requires Reaches(d, v, n) && !LocallyOk(d, n)
    ensures Visit(d, v).Err?
  {
    VisitFailsIffSomeReachedNodeIsMalformed(d, v);
  }

  // ---------------------------------------------------------------------------
  // The identity fallback and the dispatch errors
  // ---------------------------------------------------------------------------

  /** A value whose class is not registered is returned unchanged. */
  lemma IdentityFallback(d: Dialect, v: Val)
    requires !Registered(d, ClassOf(v))
    ensures Visit(d, v) == Ok(v)
  {
  }

  /** When arrays themselves are not registered, `visit` returns its argument
      unchanged exactly for the unregistered classes: every registered node
      that succeeds yields a freshly built list. */
  lemma IdentityIffUnregistered(d: Dialect, v: Val)
    requires !Registered(d, ArrayClass)
    ensures Visit(d, v) == Ok(v) <==> !Registered(d, ClassOf(v))
  {
  }

  /** A registered node whose rule cannot be dispatched raises the dispatch
      error, whatever the node holds. */
  lemma UndispatchableRuleFails(d: Dialect, v: Val)
    requires Registered(d, ClassOf(v)) && !Dispatchable(d, RuleOf(d, ClassOf(v)))
    ensures Visit(d, v) == Err(DispatchError(d, RuleOf(d, ClassOf(v))).value)
    ensures !Defines(d, RuleOf(d, ClassOf(v)).name) ==>
              Visit(d, v) == Err(NoMethodError(SymbolOf(RuleOf(d, ClassOf(v)).name)))
  {
  }

  // ---------------------------------------------------------------------------
  // One lemma per rule interpreter
  // ---------------------------------------------------------------------------

  /** The rule registered for `v`'s class, which can be dispatched. */
  ghost predicate HasRule(d: Dialect, v: Val, name: Selector)
  {
    Registered(d, ClassOf(v)) && RuleOf(d, ClassOf(v)).name == name
    && Dispatchable(d, RuleOf(d, ClassOf(v)))
  }

  /** binary: `[tag, visit(node.L), visit(node.R)]`, with L and R read from
      the entry or defaulting to `left` and `right`; a missing left reader
      raises NoMethodError for it. */
  lemma BinaryRule(d: Dialect, v: Val)
    requires HasRule(d, v, BinarySel)
    ensures var o := RuleOf(d, ClassOf(v)).options;
      var l, r := Send(v, LeftField(o)), Send(v, RightField(o));
      && 1 <= |o| <= 3
      && (Visit(d, v).Ok? <==> l.Ok? && Visit(d, l.value).Ok? && r.Ok? && Visit(d, r.value).Ok?)
      && (Visit(d, v).Ok? ==>
            Visit(d, v).value == Arr([Sym(o[0]), Visit(d, l.value).value, Visit(d, r.value).value]))
      && (l.Err? ==> Visit(d, v) == Err(NoMethodError(LeftField(o))))
      && (|o| < 2 ==> LeftField(o) == "left")
      && (|o| < 3 ==> RightField(o) == "right")
  {
    Dispatch(d, v);
  }

  /** unary: `[tag, visit(node.F)]`, F read from the entry or, when the entry
      names none, the module's default. */
  lemma UnaryRule(d: Dialect, v: Val)
    requires HasRule(d, v, UnarySel)
    ensures var o := RuleOf(d, ClassOf(v)).options;
      && (|o| >= 2 || d.unaryDefault.Some?)
      && (|o| == 1 ==> UnaryField(d, o) == d.unaryDefault.value)
      && var f := Send(v, UnaryField(d, o));
      && (Visit(d, v).Ok? <==> f.Ok? && Visit(d, f.value).Ok?)
      && (Visit(d, v).Ok? ==> Visit(d, v).value == Arr([Sym(o[0]), Visit(d, f.value).value]))
      && (f.Err? ==> Visit(d, v) == Err(NoMethodError(UnaryField(d, o))))
  {
    Dispatch(d, v);
  }

  /** unary with no field and no default: the call has one argument too few. */
  lemma UnaryWithoutFieldFails(d: Dialect, v: Val)
    requires Registered(d, ClassOf(v))
    requires RuleOf(d, ClassOf(v)).name == UnarySel && |RuleOf(d, ClassOf(v)).options| == 1
    requires d.unaryDefault.None?
    ensures Visit(d, v) == Err(ArgumentError("unary", 2, 3, 3))
  {
  }

  /** collect: one visited element per input element, in input order. */
  lemma CollectRule(d: Dialect, v: Val)
    requires HasRule(d, v, CollectSel)
    ensures Visit(d, v).Ok? <==>
              Each(v).Ok? && forall i :: 0 <= i < |Each(v).value| ==> Visit(d, Each(v).value[i]).Ok?
    ensures Visit(d, v).Ok? ==>
              var xs, out := Each(v).value, Visit(d, v).value.items;
              |out| == |xs| && forall i :: 0 <= i < |xs| ==> Ok(out[i]) == Visit(d, xs[i])
  {
    Dispatch(d, v);
  }

  /** extend: `[:extend, visit(operand), [[attribute.name, visit(expression)], ...]]`
      in the mapping's order. */
  lemma ExtendRule(d: Dialect, v: Val)
    requires HasRule(d, v, ExtendSel)
    ensures Visit(d, v).Ok? ==>
      && Send(v, "operand").Ok? && Send(v, "extensions").Ok? && Pairs(Send(v, "extensions").value).Ok?
      && var out, ps := Visit(d, v).value.items, Pairs(Send(v, "extensions").value).value;
      && |out| == 3 && out[0] == Sym("extend")
      && Ok(out[1]) == Visit(d, Send(v, "operand").value)
      && out[2].Arr? && |out[2].items| == |ps|
      && forall i :: 0 <= i < |ps| ==>
           Send(ps[i].0, "name").Ok? && Visit(d, ps[i].1).Ok? &&
           out[2].items[i] == Arr([Send(ps[i].0, "name").value, Visit(d, ps[i].1).value])
  {
    Dispatch(d, v);
  }

  /** One extension entry: its key answers `name` and its expression visits. */
  ghost predicate EntryOk(d: Dialect, e: (Val, Val))
  {
    Send(e.0, "name").Ok? && Visit(d, e.1).Ok?
  }

  /** One extension entry raises `err`: its key has no `name`, or the key
      answers and the visit of its expression raises `err`. */
  ghost predicate EntryFailsWith(d: Dialect, e: (Val, Val), err: Error)
  {
    Send(e.0, "name") == Err(err) || (Send(e.0, "name").Ok? && Visit(d, e.1) == Err(err))
  }

  /** `extensions(hash)` stops at the first entry that raises and raises its
      error. */
  lemma {:induction false} ExtensionsFirstFailure(d: Dialect, parent: Val, entries: seq<(Val, Val)>)
    requires forall i :: 0 <= i < |entries| ==> entries[i].1 < parent
    requires Extensions(d, parent, entries).Err?
    ensures exists i :: 0 <= i < |entries| && EntryFailsWith(d, entries[i], Extensions(d, parent, entries).error)
                     && forall j :: 0 <= j < i ==> EntryOk(d, entries[j])
    decreases |entries|
  {
    var err := Extensions(d, parent, entries).error;
    if Send(entries[0].0, "name").Err? || Visit(d, entries[0].1).Err? {
      assert EntryFailsWith(d, entries[0], err);
    } else {
      var rest := entries[1..];
      assert Extensions(d, parent, rest) == Err(err);
      ExtensionsFirstFailure(d, parent, rest);
      var k :| 0 <= k < |rest| && EntryFailsWith(d, rest[k], err) && forall j :: 0 <= j < k ==> EntryOk(d, rest[j]);
      assert rest[k] == entries[k + 1];
      forall j | 0 <= j < k + 1 ensures EntryOk(d, entries[j]) {
        if j > 0 {
          assert entries[j] == rest[j - 1];
        }
      }
    }
  }

  /** extend raises in evaluation order: the `operand` reader, the operand's
      visit, the `extensions` reader, the mapping's `map`, then the first
      entry whose key has no `name` or whose expression fails to visit. */
  lemma ExtendErrors(d: Dialect, v: Val)
    requires HasRule(d, v, ExtendSel)
    ensures var op, ext := Send(v, "operand"), Send(v, "extensions");
      && (op.Err? ==> Visit(d, v) == Err(NoMethodError("operand")))
      && (op.Ok? && Visit(d, op.value).Err? ==> Visit(d, v) == Visit(d, op.value))
      && (op.Ok? && Visit(d, op.value).Ok? && ext.Err? ==> Visit(d, v) == Err(NoMethodError("extensions")))
      && (op.Ok? && Visit(d, op.value).Ok? && ext.Ok? && Pairs(ext.value).Err? ==>
            Visit(d, v) == Err(NoMethodError("map")))
    ensures var op, ext := Send(v, "operand"), Send(v, "extensions");
      op.Ok? && Visit(d, op.value).Ok? && ext.Ok? && Pairs(ext.value).Ok? && Visit(d, v).Err? ==>
        var ps := Pairs(ext.value).value;
        exists i :: 0 <= i < |ps| && EntryFailsWith(d, ps[i], Visit(d, v).error)
                 && forall j :: 0 <= j < i ==> EntryOk(d, ps[j])
  {
    Dispatch(d, v);
    var op, ext := Send(v, "operand"), Send(v, "extensions");
    if op.Ok? && Visit(d, op.value).Ok? && ext.Ok? && Pairs(ext.value).Ok? && Visit(d, v).Err? {
      var ps := Pairs(ext.value).value;
      assert Extensions(d, v, ps).Err? && Visit(d, v).error == Extensions(d, v, ps).error;
      ExtensionsFirstFailure(d, v, ps);
    }
  }

  /** The s-expression of a header: one `[name, class]` pair per attribute,
      in header order, the attributes themselves never visited. */
  ghost predicate IsHeaderSexp(header: Val, h: Val)
  {
    && Each(header).Ok? && h.Arr?
    && var attributes := Each(header).value;
    && |h.items| == |attributes|
    && forall i :: 0 <= i < |attributes| ==>
         Send(attributes[i], "name").Ok? &&
         h.items[i] == Arr([Send(attributes[i], "name").value, ClassRef(ClassOf(attributes[i]))])
  }

  /** base: `[:base, name, H]` with H the header's pairs; the name is not
      visited either. */
  lemma BaseRule(d: Dialect, v: Val)
    requires HasRule(d, v, BaseSel)
    ensures Visit(d, v).Ok? ==>
      && Send(v, "name").Ok? && Send(v, "header").Ok?
      && var out := Visit(d, v).value.items;
      && |out| == 3 && out[0] == Sym("base") && out[1] == Send(v, "name").value
      && IsHeaderSexp(Send(v, "header").value, out[2])
  {
    Dispatch(d, v);
  }

  /** materialized: `[:materialized, H, rows]` with H the header's pairs and
      rows the raw tuple arrays, in order, never visited. */
  lemma MaterializedRule(d: Dialect, v: Val)
    requires HasRule(d, v, MaterializedSel)
    ensures Visit(d, v).Ok? ==>
      && Send(v, "header").Ok? && Each(v).Ok?
      && var out, ts := Visit(d, v).value.items, Each(v).value;
      && |out| == 3 && out[0] == Sym("materialized")
      && IsHeaderSexp(Send(v, "header").value, out[1])
      && out[2].Arr? && |out[2].items| == |ts|
      && forall i :: 0 <= i < |ts| ==> ToAry(ts[i]) == Ok(out[2].items[i])
  {
    Dispatch(d, v);
  }

  /** static: the one-element list `[tag]`, whatever the node holds. */
  lemma StaticRule(d: Dialect, v: Val)
    requires HasRule(d, v, StaticSel)
    ensures Visit(d, v) == Ok(Arr([Sym(RuleOf(d, ClassOf(v)).options[0])]))
  {
    Dispatch(d, v);
  }

  /** attribute: `[:attr, name]`, the name not visited. */
  lemma AttributeRule(d: Dialect, v: Val)
    requires HasRule(d, v, AttributeSel)
    ensures Visit(d, v).Ok? <==> Send(v, "name").Ok?
    ensures Visit(d, v).Ok? ==> Visit(d, v).value == Arr([Sym("attr"), Send(v, "name").value])
    ensures Send(v, "name").Err? ==> Visit(d, v) == Err(NoMethodError("name"))
  {
    Dispatch(d, v);
  }

  // ---------------------------------------------------------------------------
  // Which error each rule raises
  // ---------------------------------------------------------------------------

  /** binary evaluates left to right: the left reader, its visit, the right
      reader, its visit; the first of them to raise decides the error. */
  lemma BinaryErrors(d: Dialect, v: Val)
    requires HasRule(d, v, BinarySel)
    ensures var o := RuleOf(d, ClassOf(v)).options;
      var l, r := Send(v, LeftField(o)), Send(v, RightField(o));
      && (l.Err? ==> Visit(d, v) == Err(NoMethodError(LeftField(o))))
      && (l.Ok? && Visit(d, l.value).Err? ==> Visit(d, v) == Visit(d, l.value))
      && (l.Ok? && Visit(d, l.value).Ok? && r.Err? ==> Visit(d, v) == Err(NoMethodError(RightField(o))))
      && (l.Ok? && Visit(d, l.value).Ok? && r.Ok? && Visit(d, r.value).Err? ==> Visit(d, v) == Visit(d, r.value))
  {
    Dispatch(d, v);
  }

  /** unary: a missing reader raises NoMethodError for it; a failing visit of
      the child is the visit's failure. */
  lemma UnaryErrors(d: Dialect, v: Val)
    requires HasRule(d, v, UnarySel)
    ensures var o := RuleOf(d, ClassOf(v)).options;
      && (|o| >= 2 || d.unaryDefault.Some?)
      && var f := Send(v, UnaryField(d, o));
      && (f.Err? ==> Visit(d, v) == Err(NoMethodError(UnaryField(d, o))))
      && (f.Ok? && Visit(d, f.value).Err? ==> Visit(d, v) == Visit(d, f.value))
  {
    Dispatch(d, v);
  }

  /** collect: a node that does not enumerate raises NoMethodError for `map`;
      otherwise the first item whose visit fails decides the error. */
  lemma CollectErrors(d: Dialect, v: Val)
    requires HasRule(d, v, CollectSel)
    ensures Each(v).Err? ==> Visit(d, v) == Err(NoMethodError("map"))
    ensures Each(v).Ok? && Visit(d, v).Err? ==>
              var xs := Each(v).value;
              exists i :: 0 <= i < |xs| && Visit(d, xs[i]) == Visit(d, v)
                       && forall j :: 0 <= j < i ==> Visit(d, xs[j]).Ok?
  {
    Dispatch(d, v);
  }

  /** base: succeeds exactly when `name`, `header` and the header's attribute
      names can be read; otherwise NoMethodError for the first of `name`,
      `header`, the header's `map` and an attribute's `name` that is missing. */
  lemma BaseErrors(d: Dialect, v: Val)
    requires HasRule(d, v, BaseSel)
    ensures var n, h := Send(v, "name"), Send(v, "header");
      && (Visit(d, v).Ok? <==> n.Ok? && h.Ok? && HeaderOk(h.value))
      && (n.Err? ==> Visit(d, v) == Err(NoMethodError("name")))
      && (n.Ok? && h.Err? ==> Visit(d, v) == Err(NoMethodError("header")))
      && (n.Ok? && h.Ok? && Each(h.value).Err? ==> Visit(d, v) == Err(NoMethodError("map")))
      && (n.Ok? && h.Ok? && Each(h.value).Ok? && !HeaderOk(h.value) ==>
            Visit(d, v) == Err(NoMethodError("name")))
  {
    Dispatch(d, v);
  }

  /** materialized: succeeds exactly when the header's names can be read and
      every tuple answers `to_ary`; otherwise NoMethodError for the first of
      `header`, the header's `map`, an attribute's `name`, the relation's `map`
      and a tuple's `to_ary` that is missing. */
  lemma MaterializedErrors(d: Dialect, v: Val)
    requires HasRule(d, v, MaterializedSel)
    ensures var h := Send(v, "header");
      && (Visit(d, v).Ok? <==>
            h.Ok? && HeaderOk(h.value) && Each(v).Ok? && forall t <- Each(v).value :: ToAry(t).Ok?)
      && (h.Err? ==> Visit(d, v) == Err(NoMethodError("header")))
      && (h.Ok? && Each(h.value).Err? ==> Visit(d, v) == Err(NoMethodError("map")))
      && (h.Ok? && Each(h.value).Ok? && !HeaderOk(h.value) ==> Visit(d, v) == Err(NoMethodError("name")))
      && (h.Ok? && HeaderOk(h.value) && Each(v).Err? ==> Visit(d, v) == Err(NoMethodError("map")))
      && (h.Ok? && HeaderOk(h.value) && Each(v).Ok? && (exists t <- Each(v).value :: ToAry(t).Err?) ==>
            Visit(d, v) == Err(NoMethodError("to_ary")))
  {
    Dispatch(d, v);
  }
}
