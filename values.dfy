/** JavaScript values as the rule engine sees them.

    Only what the engine distinguishes is kept: booleans, numbers, strings and
    objects. Every object (plain object, array, function, regular expression)
    is known by its identity, because `===` compares objects by reference.
    `null` and `undefined` are not values here: wherever the engine may meet
    them, the model uses `Option<Value>` and `None` stands for both. */
module Values {

  datatype Option<+T> = None | Some(value: T)

  /** A present (non-null, non-undefined) JavaScript value. Numbers are
      integers: the engine only compares them with `===`. */
  datatype Value =
    | Bool(b: bool)
    | Num(n: int)
    | Str(s: string)
    | Ref(id: nat)

  /** The value a literal matcher holds: anything but a boolean, since a
      boolean condition is dispatched as a boolean constant before the
      literal case is reached. `None` is a `null` or `undefined` condition. */
  type Literal = o: Option<Value> | !(o.Some? && o.value.Bool?) witness None

  /** Strict equality `literal === value` for a present value. */
  predicate StrictEquals(literal: Literal, v: Value)
  {
    literal == Some(v)
  }

  /** Decimal text of a natural number, most significant digit first. */
  function NatText(n: nat): (s: string)
    ensures |s| > 0
    ensures forall i :: 0 <= i < |s| ==> '0' <= s[i] <= '9'
  {
    var d := [(48 + n % 10) as char];
    if n < 10 then d else NatText(n / 10) + d
  }

  /** `String(v)`: the text a regular expression is tested against. An
      object's text is the default `Object.prototype.toString` result. */
  function ToText(v: Value): string
  {
    match v
    case Bool(b) => if b then "true" else "false"
    case Num(n) => if n < 0 then "-" + NatText(-n) else NatText(n)
    case Str(s) => s
    case Ref(_) => "[object Object]"
  }
}
