/** The condition language: a matcher is tested against the value observed
    for one request field (`check` in lib/httptables.js).

    The JavaScript tells the shapes apart with `instanceof` and `typeof`, in a
    fixed order: array, function, regular expression, `{instruction, args}`
    object, boolean, anything else. Here each shape is its own constructor;
    the order survives as the order of the cases, and a value that could be
    read as two shapes is written as the one the JavaScript tries first. */
module Matchers {
  import opened Values

  datatype Matcher =
      /** An array: true iff some element matches, tried left to right. The
          array is finite and does not contain itself. */
    | Seq(items: seq<Matcher>)
      /** A function: called with the observed value, it returns the matcher to use. */
    | Pred(f: Value -> Matcher)
      /** A regular expression, given by what its `test` answers for a text. */
    | Pattern(test: string -> bool)
      /** `{instruction, args}`: the instruction is called with the fixed
          arguments (never with the observed value) and returns the matcher
          to use. `None` stands for missing or falsy `args`. */
    | Instr(instruction: seq<Value> -> Matcher, args: Option<seq<Value>>)
      /** A boolean: the answer itself. */
    | BoolC(b: bool)
      /** Anything else: compared with `===`. */
    | Lit(literal: Literal)

  /** `compareTo.args || []` */
  function Arguments(args: Option<seq<Value>>): seq<Value>
  {
    if args.Some? then args.value else []
  }

  /** `check(m, v)`. `v == None` is a `null` or `undefined` observed value.

      The JavaScript puts no bound on chains of functions and instructions that
      produce further matchers; `fuel` is the number of such calls that may
      still be nested, standing for the call stack. `None` is the result when
      a chain is deeper than that: JavaScript would exhaust its stack. */
  function Check(m: Matcher, v: Option<Value>, fuel: nat): (r: Option<bool>)
    ensures v.None? ==> r == Some(false)
    decreases fuel, m
  {
    if v.None? then Some(false)
    else
      match m
      case Seq(items) => AnyFrom(items, v.value, fuel, false)
      case Pred(f) => if fuel == 0 then None else Check(f(v.value), v, fuel - 1)
      case Pattern(test) => Some(test(ToText(v.value)))
      case Instr(instruction, args) =>
        if fuel == 0 then None else Check(instruction(Arguments(args)), v, fuel - 1)
      case BoolC(b) => Some(b)
      case Lit(literal) => Some(StrictEquals(literal, v.value))
  }

  /** The `reduce` over an array matcher, with `total` the accumulator:
      `total || check(item, v)` does not evaluate the item once `total` holds. */
  function AnyFrom(items: seq<Matcher>, v: Value, fuel: nat, total: bool): Option<bool>
    decreases fuel, items
  {
    if items == [] then Some(total)
    else if total then AnyFrom(items[1..], v, fuel, true)
    else
      match Check(items[0], Some(v), fuel)
      case None => None
      case Some(b) => AnyFrom(items[1..], v, fuel, b)
  }

  /** Every item before index `k` was evaluated to false. */
  ghost predicate FalseBefore(items: seq<Matcher>, v: Value, fuel: nat, k: int)
    requires k <= |items|
  {
    forall j :: 0 <= j < k ==> Check(items[j], Some(v), fuel) == Some(false)
  }

  lemma {:induction false} AnyFromTrue(items: seq<Matcher>, v: Value, fuel: nat)
    ensures AnyFrom(items, v, fuel, true) == Some(true)
    decreases items
  {
    if items != [] {
      AnyFromTrue(items[1..], v, fuel);
    }
  }

  /** An array matcher is an ordered disjunction: it is true iff some item is
      true and every item before it is false, false iff every item is false
      (so an empty array is false), and it fails only at an item whose chain
      is too deep, after items that were all false. */
  lemma {:induction false} SeqIsOrderedDisjunction(items: seq<Matcher>, v: Value, fuel: nat)
    ensures Check(Seq(items), Some(v), fuel) == Some(true) <==>
              exists k :: 0 <= k < |items| && FalseBefore(items, v, fuel, k) &&
                Check(items[k], Some(v), fuel) == Some(true)
    ensures Check(Seq(items), Some(v), fuel) == Some(false) <==> FalseBefore(items, v, fuel, |items|)
    ensures Check(Seq(items), Some(v), fuel) == None <==>
              exists k :: 0 <= k < |items| && FalseBefore(items, v, fuel, k) &&
                Check(items[k], Some(v), fuel) == None
    decreases items
  {
    if items != [] {
      var rest := items[1..];
      SeqIsOrderedDisjunction(rest, v, fuel);
      var head := Check(items[0], Some(v), fuel);
      if head == Some(true) {
        AnyFromTrue(rest, v, fuel);
        assert FalseBefore(items, v, fuel, 0);
      } else if head == Some(false) {
        // Every property of `rest` at index k is the property of `items` at k + 1.
        forall k | 0 <= k <= |rest|
          ensures FalseBefore(rest, v, fuel, k) <==> FalseBefore(items, v, fuel, k + 1)
        {
          if FalseBefore(rest, v, fuel, k) {
            forall j | 0 <= j < k + 1
              ensures Check(items[j], Some(v), fuel) == Some(false)
            {
              if j > 0 { assert items[j] == rest[j - 1]; }
            }
          }
          if FalseBefore(items, v, fuel, k + 1) {
            forall j | 0 <= j < k
              ensures Check(rest[j], Some(v), fuel) == Some(false)
            {
              assert rest[j] == items[j + 1];
            }
          }
        }
        if exists k :: 0 <= k < |items| && FalseBefore(items, v, fuel, k) &&
             Check(items[k], Some(v), fuel) == Some(true) {
          var k :| 0 <= k < |items| && FalseBefore(items, v, fuel, k) &&
                   Check(items[k], Some(v), fuel) == Some(true);
          assert k > 0 && rest[k - 1] == items[k];
        }
        if exists k :: 0 <= k < |items| && FalseBefore(items, v, fuel, k) &&
             Check(items[k], Some(v), fuel) == None {
          var k :| 0 <= k < |items| && FalseBefore(items, v, fuel, k) &&
                   Check(items[k], Some(v), fuel) == None;
          assert k > 0 && rest[k - 1] == items[k];
        }
      } else {
        assert FalseBefore(items, v, fuel, 0);
      }
    }
  }

  /** Once an array matcher is true, items appended after it change nothing:
      they are never evaluated, even if evaluating them would fail. */
  lemma LaterItemsNotEvaluated(items: seq<Matcher>, rest: seq<Matcher>, v: Value, fuel: nat)
    requires Check(Seq(items), Some(v), fuel) == Some(true)
    ensures Check(Seq(items + rest), Some(v), fuel) == Some(true)
  {
    SeqIsOrderedDisjunction(items, v, fuel);
    SeqIsOrderedDisjunction(items + rest, v, fuel);
    var k :| 0 <= k < |items| && FalseBefore(items, v, fuel, k) &&
             Check(items[k], Some(v), fuel) == Some(true);
    assert (items + rest)[k] == items[k];
    assert forall j :: 0 <= j < k ==> (items + rest)[j] == items[j];
    assert FalseBefore(items + rest, v, fuel, k);
  }

  /** More call depth never changes a result that was reached: the answer
      of `check` does not depend on the bound once the bound suffices. */
  lemma {:induction false} FuelMonotone(m: Matcher, v: Option<Value>, fuel: nat, more: nat)
    requires Check(m, v, fuel).Some?
    ensures Check(m, v, fuel + more) == Check(m, v, fuel)
    decreases fuel, m
  {
    if v.Some? {
      match m
      case Seq(items) => AnyFromFuelMonotone(items, v.value, fuel, more, false);
      case Pred(f) => FuelMonotone(f(v.value), v, fuel - 1, more);
      case Instr(instruction, args) => FuelMonotone(instruction(Arguments(args)), v, fuel - 1, more);
      case Pattern(_) =>
      case BoolC(_) =>
      case Lit(_) =>
    }
  }

  lemma {:induction false} AnyFromFuelMonotone(items: seq<Matcher>, v: Value, fuel: nat, more: nat, total: bool)
    requires AnyFrom(items, v, fuel, total).Some?
    ensures AnyFrom(items, v, fuel + more, total) == AnyFrom(items, v, fuel, total)
    decreases fuel, items
  {
    if items != [] {
      if total {
        AnyFromFuelMonotone(items[1..], v, fuel, more, true);
      } else {
        FuelMonotone(items[0], Some(v), fuel, more);
        var head := Check(items[0], Some(v), fuel);
        AnyFromFuelMonotone(items[1..], v, fuel, more, head.value);
      }
    }
  }

  /** A matcher that never calls back into user code: a regular
      expression, a boolean, a literal, or an array of such matchers. */
  predicate CallFree(m: Matcher)
  {
    match m
    case Seq(items) => forall i :: 0 <= i < |items| ==> CallFree(items[i])
    case Pred(_) => false
    case Instr(_, _) => false
    case _ => true
  }

  /** A matcher without functions or instructions, nested to any finite
      depth, always gives an answer, and the same answer whatever the
      call depth left. Arrays here are finite and acyclic, so only function
      and instruction matchers use call depth. */
  lemma {:induction false} CallFreeNeedsNoDepth(m: Matcher, v: Option<Value>, fuel: nat, other: nat)
    requires CallFree(m)
    ensures Check(m, v, fuel).Some?
    ensures Check(m, v, fuel) == Check(m, v, other)
    decreases m
  {
    if v.Some? && m.Seq? {
      forall i | 0 <= i < |m.items|
        ensures Check(m.items[i], v, fuel).Some?
        ensures Check(m.items[i], v, fuel) == Check(m.items[i], v, other)
      {
        CallFreeNeedsNoDepth(m.items[i], v, fuel, other);
      }
      AnyFromDepthFree(m.items, v.value, fuel, other, false);
    }
  }

  lemma {:induction false} AnyFromDepthFree(items: seq<Matcher>, v: Value, fuel: nat, other: nat, total: bool)
    requires forall i :: 0 <= i < |items| ==> Check(items[i], Some(v), fuel).Some?
    requires forall i :: 0 <= i < |items| ==> Check(items[i], Some(v), fuel) == Check(items[i], Some(v), other)
    ensures AnyFrom(items, v, fuel, total).Some?
    ensures AnyFrom(items, v, fuel, total) == AnyFrom(items, v, other, total)
    decreases items
  {
    if items != [] {
      assert forall i :: 0 <= i < |items[1..]| ==> items[1..][i] == items[i + 1];
      var next := if total then true else Check(items[0], Some(v), fuel).value;
      AnyFromDepthFree(items[1..], v, fuel, other, next);
    }
  }
}
