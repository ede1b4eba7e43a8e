# httptables rule engine, modelled in Dafny

httptables decides whether an HTTP-like request gets the policy `DROP` (0) or
`ACCEPT` (1). A rule is a policy plus a mapping from field names to
conditions. The engine scans an ordered array of rules, and the first rule
whose conditions all hold decides. When no rule matches, or the matching
rule's policy is not a supported code, the engine's default policy decides.

This project models the engine of `lib/httptables.js` and proves its
behaviour. It has four parts:

- `values.dfy` (`Values`): the JavaScript values the engine compares.
  Booleans, integers, strings, and objects known by identity. `Option<Value>`
  stands for a value that may be `null` or `undefined`.
- `policies.dfy` (`Policies`): the `HTTPTables.policies` table and
  `isPolicySupported`.
- `matchers.dfy` (`Matchers`): the condition language `check`. A `Matcher`
  datatype has one constructor per shape the JavaScript recognises. They are
  tried in the code's order: array, function, regular expression,
  `{instruction, args}`, boolean, literal.
- `httptables.dfy` (`HttpTables`): rules, rule arrays and errors. The pure
  specification functions are `MatchFields`, `Matching`, `Resolve` and
  `Decide`. The `Engine` class has the fields `rules` (`_rules`),
  `defaultPolicy` and `accessField`. Its constructor and
  `SetAccessFieldFunction` update those fields. `IsMatching` and
  `ApplyRules` are loops proved equal to the specification functions;
  `Test` delegates to `ApplyRules` with the engine's own rules. The lemmas
  state what the specification functions guarantee.

Thrown errors are `Err` values of a `Result`, one error kind per `throw`
statement. The code puts no bound on chains of function or instruction
matchers, so `Check` takes a `fuel` argument: the depth of such calls that
may still be nested. It returns `None` when a chain is deeper than that,
where JavaScript would exhaust its stack. `IsMatching` and `ApplyRules`
report that case as the error `TooDeep`. `FuelMonotone` shows that a
result, once reached, does not depend on the bound.

## Behaviour followed where the code and its documentation differ

The documentation meant here is the doc comment at
`lib/httptables.js:1-29`, the error message at `lib/httptables.js:127`, and
the tests at `test/test.js:36-37` and `test/test.js:104`. The model follows
the code.

- A rule's policy is looked up by code (`policies[k] === policy`,
  `lib/httptables.js:36`). A policy written by name, such as `'DROP'`, is
  not supported, so the default decides (`NamedPolicyFallsBack`). The same
  applies to `defaultPolicy: 'DROP'` in the constructor: the engine uses
  ACCEPT.
- The default accessor reads `req.headers[field]` with the field name as
  written. It does no case normalisation (`DefaultAccessorNoCaseFolding`).
- `isMatching` throws only when `rule.conditions` is `null` or `undefined`.
  `Object.keys` turns a string into its character indices, so
  `conditions: "bad"` is not an error. Such conditions are modelled as the
  key list `Object.keys` yields.
- `applyRules` rejects only a `null` or `undefined` request, although its
  message says "falsy". A falsy request such as `""` is scanned like any
  other (`InputValidation`).
- A `null` rule element passes the shape test (its `typeof` is `'object'`).
  The log message built next reads its `name`, which throws a `TypeError`
  before `isMatching` is called. The model gives the error `NullRule`
  (`MalformedRuleRejectedWhenReached`).

## Model

| member | source | states |
|---|---|---|
| `Policies.SupportedPolicies` | lib/httptables.js:34-38 | A policy is supported iff it is the code 0 or 1, the values of the `policies` table. The names `'DROP'` and `'ACCEPT'` are not supported. |
| `Matchers.Check` | lib/httptables.js:66-92 | `check`, one case per matcher shape in the code's order. Its contract: a `null`/`undefined` observed value gives false for every matcher shape, including `true` and arrays. |
| `Matchers.SeqIsOrderedDisjunction` | lib/httptables.js:72-76 | An array matcher is true iff some item is true and all items before it are false. It is false iff every item is false, so an empty array is false. It fails only at a too-deep item after items that were all false. |
| `Matchers.LaterItemsNotEvaluated` | lib/httptables.js:74-76 | Once an array matcher is true, items appended after it leave it true, even items whose evaluation would fail: the short-circuit `or` in the `reduce` never evaluates them. |
| `Matchers.FuelMonotone` | lib/httptables.js:77-85 | A result `check` reaches with some call depth is the same with any greater depth. |
| `Matchers.CallFreeNeedsNoDepth` | lib/httptables.js:72-92 | A matcher built only from regular expressions, booleans, literals and arrays of those, nested to any finite depth, always gives an answer, and the same answer for every call depth. In the model, where arrays are finite and acyclic, only function and instruction matchers use call depth. |
| `HttpTables.DefaultAccessorNoCaseFolding` | lib/httptables.js:47-49 | For every header map and field name, the default accessor finds a value iff the name is a key, and then it is that header's value. A header stored under any other name is not found, so there is no case folding. A request without headers reads as `undefined`. |
| `HttpTables.MatchFieldsIsConjunction` | lib/httptables.js:110-118 | A rule's conditions are true iff every condition holds. They are false iff some condition is false after conditions that all held. The only error is a too-deep chain reached in the same way. |
| `HttpTables.MatchingErrors` | lib/httptables.js:104-109 | `isMatching` throws the conditions error exactly when `conditions` (or the rule) is `null`/`undefined`. Empty conditions match every request. |
| `HttpTables.MissingFieldNeverMatches` | lib/httptables.js:110-115 | A condition on a field the accessor reports as `undefined` keeps the rule from matching. |
| `HttpTables.LaterFieldsNotRead` | lib/httptables.js:110-118 | Once a condition fails, conditions appended after it change nothing. The scan returns before reading them. |
| `HttpTables.NonMatchingPrefixSkipped` | lib/httptables.js:130-141 | Rule objects (not `null`, not malformed) that do not match are passed over: the outcome is that of the rest of the array. |
| `HttpTables.FirstMatchWins` | lib/httptables.js:130-139 | Suppose the rule at index k matches and no earlier rule does. The result is that rule's policy if supported, otherwise the default. Later rules have no effect, malformed ones included. |
| `HttpTables.NoMatchGivesDefault` | lib/httptables.js:130-142 | When every element is a rule object and none matches, the result is the default policy. |
| `HttpTables.MalformedRuleRejectedWhenReached` | lib/httptables.js:131-135 | A non-object or array element reached by the scan throws the rule-format error. A `null` element throws the `TypeError` of reading its `name`. A rule with `null` conditions throws the conditions error. |
| `HttpTables.ScanErrors` | lib/httptables.js:104-141 | The scan over the rule array throws only the rule-format, `null`-element, conditions or depth error, never an argument error. |
| `HttpTables.InputValidation` | lib/httptables.js:122-128 | The array error is thrown iff `rules` is not an array, whatever the request. The request error is thrown iff `rules` is an array and the request is `null`/`undefined`. Any other request with an empty rule array gives the default policy. |
| `HttpTables.ResolveInDomain` | lib/httptables.js:137-142 | The scan returns either the default policy or a supported policy of a matching rule. |
| `HttpTables.DecisionInDomain` | lib/httptables.js:137-142 | With a supported default, every returned policy is DROP (0) or ACCEPT (1). |
| `HttpTables.NamedPolicyFallsBack` | lib/httptables.js:36-38 | A matching first rule whose policy is the name `'DROP'` yields the default policy. |
| `HttpTables.ApiScenario` | lib/httptables.js:122-143 | With default ACCEPT, a rule dropping POST/GET on URLs matching an `/api/` pattern drops a POST there and accepts a PUT there. |
| `HttpTables.Engine.constructor` | lib/httptables.js:41-50 | The engine keeps `options.rules`. It keeps `options.defaultPolicy` only if supported and uses ACCEPT otherwise. It starts with the header accessor. The default policy is always supported. |
| `HttpTables.Engine.SetAccessFieldFunction` | lib/httptables.js:57-64 | A non-function is refused with an error and nothing changes. A function replaces the accessor. No other field changes. |
| `HttpTables.Engine.IsMatching` | lib/httptables.js:100-119 | The field loop returns what `Matching` specifies: the conditions error, false at the first failing field, the depth error, or true. |
| `HttpTables.Engine.ApplyRules` | lib/httptables.js:122-143 | Returns what `Decide` specifies: the argument checks, then the scan, where a `null` element throws the `TypeError` of line 134 and the first matching rule wins. It modifies no engine field. On a valid engine, every returned policy is 0 or 1. |
| `HttpTables.Engine.Test` | lib/httptables.js:146-148 | Applies the engine's own `rules` to the request, with the same guarantees as `ApplyRules`. |

## Left out

- Logging through `debug`: its output is not modelled. Building the
  message at `lib/httptables.js:134` is, because it throws for a `null`
  element.
- The commented-out Express middleware (`lib/httptables.js:151-180`) and
  `experiments.js`: server wiring and console I/O.
- The regular-expression engine. A pattern is given by the answer of its
  `test` for a text. Stateful `g`/`y` patterns, whose `lastIndex` changes
  between calls, are not modelled.
- Callbacks are total pure functions. A function matcher, an instruction or
  an accessor that throws or has side effects is not modelled.
- `Check`, `IsMatching`, `ApplyRules`, `Test`: the `fuel` bound stands for
  the JavaScript call stack. Its exact depth is not modelled.
- JavaScript numbers are modelled as integers. Fractions, `NaN` and `-0` are
  not modelled.
- StrictEquals: compares unbounded integers, not IEEE doubles. Beyond
  2^53 two distinct integers can be the same double, so
  `9007199254740993 === 9007199254740992` is true in JavaScript but false
  here.
- ToText: writes every integer in plain decimal digits. `String` switches
  to exponent notation from 1e21 on (`String(1e21)` is `"1e+21"`), so a
  pattern tested against such a number sees a different text here.
- An object's text, for pattern tests, is taken to be `[object Object]`.
  Arrays, functions and regular expressions as observed values have other
  texts in JavaScript.
- Properties inherited through the prototype chain are not modelled. For
  example, `req.headers['constructor']` reads as `undefined` here.
- Seq: a finite, acyclic array of matchers. An array that contains itself
  (`a.push(a)`), or one nested deep enough to overflow the stack in
  `check`, cannot be written, so the `RangeError` those raise in JavaScript
  is not modelled.
- Instr: `args` elements are present values. `null` or `undefined` elements
  of `args` cannot be written; since the instruction is an arbitrary
  function, no `check` result is lost by this.
- IsMatching: modelled as `applyRules` calls it, with a request that is not
  `null` or `undefined`. Called directly with `null`, `isMatching` would
  give true for empty conditions and otherwise throw a `TypeError` from
  `req.headers` in the default accessor.
- A truthy `args` that is not an array is not modelled. `apply` would
  spread an array-like or throw.
- `rule.name` is used only in log messages, so it has no effect here.
- Writes to the engine's fields from outside its methods are not modelled.
  `Valid()` (a supported default policy) holds from construction on.
- A falsy `options.rules` is stored as `null`. Here it is the non-array
  `NotAnArray`, which `applyRules` rejects the same way.
