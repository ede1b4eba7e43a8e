/** The rule engine of lib/httptables.js: rules, the per-rule predicate
    (`isMatching`), the first-match-wins resolver (`applyRules`) and the
    engine object that holds the default policy, the field accessor and the
    engine's own rules. */
module HttpTables {
  import opened Values
  import opened Policies
  import opened Matchers

  /** A request, as far as the engine can tell requests apart: `id` stands
      for whatever a custom accessor may read, `headers` for `req.headers`
      (`None` when that property is missing or falsy). A missing header name
      reads as `undefined`. */
  datatype Request = Request(id: nat, headers: Option<map<string, Value>>)

  /** The field accessor: `(req, field) -> value`, `None` for `undefined`. */
  type Accessor = (Request, string) -> Option<Value>

  /** One own enumerable key of `rule.conditions` with the matcher stored under it. */
  datatype Condition = Condition(field: string, matcher: Matcher)

  /** A rule object. `conditions` is `None` when it is `null` or `undefined`;
      otherwise it lists the keys `Object.keys` yields, in that order. */
  datatype Rule = Rule(name: Option<string>, policy: Option<Value>, conditions: Option<seq<Condition>>)

  /** An element of a rule array, as the shape test of `applyRules` sees it:
      a non-array object, `null` (whose `typeof` is `'object'`), or anything
      else (a primitive, `undefined`, a function or an array). */
  datatype Entry = RuleObject(rule: Rule) | NullEntry | WrongShape

  /** The `rules` argument: an array, or any value that is not one. */
  datatype RuleSet = RuleArray(entries: seq<Entry>) | NotAnArray

  /** The errors the engine throws. `NullRule` is the `TypeError` raised
      when `applyRules` reads `.name` of a `null` element for its log
      message. `TooDeep` is the stack exhaustion of an unbounded chain of
      function or instruction matchers. */
  datatype Error =
    | AccessorNotFunction   // 'accessor is not a function'
    | BadConditions         // 'Incorrect rule conditions format'
    | RulesNotArray         // 'Rules must be passed as an array'
    | NullRequest           // 'Req must not be falsy'
    | BadRuleFormat         // 'Incorrect rule format'
    | NullRule              // TypeError: reading `name` of null
    | TooDeep

  datatype Result<+T> = Ok(value: T) | Err(error: Error)

  /** The argument of `setAccessFieldFunction`: a function, or anything else. */
  datatype AccessorArg = Callable(f: Accessor) | NotCallable

  /** Constructor options; `rules` is `NotAnArray` when missing or falsy and
      `defaultPolicy` is `None` when missing. */
  datatype Options = Options(rules: RuleSet, defaultPolicy: Option<Value>)

  /** The accessor an engine starts with: `req.headers[field]` when the
      request has headers, `undefined` otherwise. Field names are used as
      given, with no change of case. */
  function DefaultAccessor(req: Request, field: string): Option<Value>
  {
    if req.headers.Some? && field in req.headers.value then Some(req.headers.value[field]) else None
  }

  /** The default accessor looks a field up under exactly the name given:
      a header stored under any other name (`METHOD` for `method`, say) is
      not found, and a request without headers has no fields. */
  lemma DefaultAccessorNoCaseFolding(id: nat, headers: map<string, Value>, stored: string, field: string, v: Value)
    ensures DefaultAccessor(Request(id, Some(headers)), field).Some? <==> field in headers
    ensures field in headers ==> DefaultAccessor(Request(id, Some(headers)), field) == Some(headers[field])
    ensures stored != field ==> DefaultAccessor(Request(id, Some(map[stored := v])), field) == None
    ensures DefaultAccessor(Request(id, None), field) == None
  {
  }

  /** `rule.conditions` read from a rule array element (`None` for `null`). */
  function ConditionsOf(rule: Option<Rule>): Option<seq<Condition>>
  {
    if rule.Some? then rule.value.conditions else None
  }

  /** The conditions checked left to right, stopping at the first one that
      fails or runs out of call depth. */
  function MatchFields(access: Accessor, req: Request, conds: seq<Condition>, fuel: nat): Result<bool>
  {
    if conds == [] then Ok(true)
    else
      match Check(conds[0].matcher, access(req, conds[0].field), fuel)
      case None => Err(TooDeep)
      case Some(false) => Ok(false)
      case Some(true) => MatchFields(access, req, conds[1..], fuel)
  }

  /** What `isMatching(req, rule)` returns or throws. */
  function Matching(access: Accessor, req: Request, rule: Option<Rule>, fuel: nat): Result<bool>
  {
    match ConditionsOf(rule)
    case None => Err(BadConditions)
    case Some(conds) => MatchFields(access, req, conds, fuel)
  }

  /** The policy of a matching rule: its own when supported, else the default. */
  function Selected(policy: Option<Value>, defaultPolicy: Value): Value
  {
    if IsPolicySupported(policy) then policy.value else defaultPolicy
  }

  /** The scan of `applyRules` over the rule array, first match wins. A
      `null` element passes the shape test but fails when its `name` is read
      for the log message, before `isMatching` is called. */
  function Resolve(access: Accessor, defaultPolicy: Value, req: Request, entries: seq<Entry>, fuel: nat): Result<Value>
  {
    if entries == [] then Ok(defaultPolicy)
    else
      match entries[0]
      case WrongShape => Err(BadRuleFormat)
      case NullEntry => Err(NullRule)
      case RuleObject(rule) =>
        match Matching(access, req, Some(rule), fuel)
        case Err(e) => Err(e)
        case Ok(true) => Ok(Selected(rule.policy, defaultPolicy))
        case Ok(false) => Resolve(access, defaultPolicy, req, entries[1..], fuel)
  }

  /** What `applyRules(req, rules)` returns or throws; `req == None` is a
      `null` or `undefined` request. */
  function Decide(access: Accessor, defaultPolicy: Value, req: Option<Request>, rules: RuleSet, fuel: nat): Result<Value>
  {
    if rules.NotAnArray? then Err(RulesNotArray)
    else if req.None? then Err(NullRequest)
    else Resolve(access, defaultPolicy, req.value, rules.entries, fuel)
  }


  /** The result of checking one condition of a rule against a request. */
  function FieldCheck(access: Accessor, req: Request, cond: Condition, fuel: nat): Option<bool>
  {
    Check(cond.matcher, access(req, cond.field), fuel)
  }

  /** Every condition before index `k` holds. */
  ghost predicate TrueBefore(access: Accessor, req: Request, conds: seq<Condition>, fuel: nat, k: int)
    requires k <= |conds|
  {
    forall j :: 0 <= j < k ==> FieldCheck(access, req, conds[j], fuel) == Some(true)
  }

  /** A rule's conditions form a conjunction, evaluated left to right: true
      iff every condition holds (so no conditions at all is true), false iff
      some condition is false after conditions that all held, and the only
      error is a too-deep chain met in the same way. */
  lemma {:induction false} MatchFieldsIsConjunction(access: Accessor, req: Request, conds: seq<Condition>, fuel: nat)
    ensures MatchFields(access, req, conds, fuel) == Ok(true) <==> TrueBefore(access, req, conds, fuel, |conds|)
    ensures MatchFields(access, req, conds, fuel) == Ok(false) <==>
              exists k :: 0 <= k < |conds| && TrueBefore(access, req, conds, fuel, k) &&
                FieldCheck(access, req, conds[k], fuel) == Some(false)
    ensures MatchFields(access, req, conds, fuel) == Err(TooDeep) <==>
              exists k :: 0 <= k < |conds| && TrueBefore(access, req, conds, fuel, k) &&
                FieldCheck(access, req, conds[k], fuel) == None
    ensures MatchFields(access, req, conds, fuel).Err? ==> MatchFields(access, req, conds, fuel).error == TooDeep
    decreases conds
  {
    if conds != [] {
      var rest := conds[1..];
      MatchFieldsIsConjunction(access, req, rest, fuel);
      var head := FieldCheck(access, req, conds[0], fuel);
      if head == Some(true) {
        forall k | 0 <= k <= |rest|
          ensures TrueBefore(access, req, rest, fuel, k) <==> TrueBefore(access, req, conds, fuel, k + 1)
        {
          if TrueBefore(access, req, rest, fuel, k) {
            forall j | 0 <= j < k + 1
              ensures FieldCheck(access, req, conds[j], fuel) == Some(true)
            {
              if j > 0 { assert conds[j] == rest[j - 1]; }
            }
          }
          if TrueBefore(access, req, conds, fuel, k + 1) {
            forall j | 0 <= j < k
              ensures FieldCheck(access, req, rest[j], fuel) == Some(true)
            {
              assert rest[j] == conds[j + 1];
            }
          }
        }
        if exists k :: 0 <= k < |conds| && TrueBefore(access, req, conds, fuel, k) &&
             FieldCheck(access, req, conds[k], fuel) == Some(false) {
          var k :| 0 <= k < |conds| && TrueBefore(access, req, conds, fuel, k) &&
                   FieldCheck(access, req, conds[k], fuel) == Some(false);
          assert k > 0 && rest[k - 1] == conds[k];
        }
        if exists k :: 0 <= k < |conds| && TrueBefore(access, req, conds, fuel, k) &&
             FieldCheck(access, req, conds[k], fuel) == None {
          var k :| 0 <= k < |conds| && TrueBefore(access, req, conds, fuel, k) &&
                   FieldCheck(access, req, conds[k], fuel) == None;
          assert k > 0 && rest[k - 1] == conds[k];
        }
      } else {
        assert TrueBefore(access, req, conds, fuel, 0);
      }
    }
  }

  /** `isMatching` throws exactly when the conditions are `null` or
      `undefined` (or the rule itself is `null`); an empty conditions object
      matches every request. */
  lemma MatchingErrors(access: Accessor, req: Request, rule: Option<Rule>, fuel: nat)
    ensures Matching(access, req, rule, fuel) == Err(BadConditions) <==> ConditionsOf(rule).None?
    ensures ConditionsOf(rule) == Some([]) ==> Matching(access, req, rule, fuel) == Ok(true)
  {
    if ConditionsOf(rule).Some? {
      MatchFieldsIsConjunction(access, req, ConditionsOf(rule).value, fuel);
    }
  }

  /** A condition on a field the request does not have (the accessor gives
      `undefined`) keeps the rule from matching, whatever the other
      conditions and whatever the matcher, even `true`. */
  lemma MissingFieldNeverMatches(access: Accessor, req: Request, rule: Option<Rule>, fuel: nat, k: nat)
    requires ConditionsOf(rule).Some? && k < |ConditionsOf(rule).value|
    requires access(req, ConditionsOf(rule).value[k].field).None?
    ensures Matching(access, req, rule, fuel) != Ok(true)
  {
    var conds := ConditionsOf(rule).value;
    MatchFieldsIsConjunction(access, req, conds, fuel);
    assert FieldCheck(access, req, conds[k], fuel) == Some(false);
  }

  /** Once a condition has failed, conditions after it are not consulted:
      appending conditions (even ones whose check would run out of call
      depth) to conditions that do not all hold changes nothing. */
  lemma {:induction false} LaterFieldsNotRead(access: Accessor, req: Request, conds: seq<Condition>, more: seq<Condition>, fuel: nat)
    requires MatchFields(access, req, conds, fuel) != Ok(true)
    ensures MatchFields(access, req, conds + more, fuel) == MatchFields(access, req, conds, fuel)
    decreases conds
  {
    assert conds != [];
    assert (conds + more)[0] == conds[0];
    if FieldCheck(access, req, conds[0], fuel) == Some(true) {
      assert (conds + more)[1..] == conds[1..] + more;
      LaterFieldsNotRead(access, req, conds[1..], more, fuel);
    }
  }

  /** Every element before index `k` is a rule object that does not match;
      the scan went past all of them. */
  ghost predicate NoMatchBefore(access: Accessor, req: Request, entries: seq<Entry>, fuel: nat, k: int)
    requires k <= |entries|
  {
    forall j :: 0 <= j < k ==>
      entries[j].RuleObject? && Matching(access, req, Some(entries[j].rule), fuel) == Ok(false)
  }

  /** The scan skips non-matching rules: the outcome is decided by the first
      element that is malformed, fails or matches. */
  lemma {:induction false} NonMatchingPrefixSkipped(access: Accessor, defaultPolicy: Value, req: Request,
                                                    entries: seq<Entry>, fuel: nat, k: nat)
    requires k <= |entries| && NoMatchBefore(access, req, entries, fuel, k)
    ensures Resolve(access, defaultPolicy, req, entries, fuel) == Resolve(access, defaultPolicy, req, entries[k..], fuel)
    decreases k
  {
    if k > 0 {
      var rest := entries[1..];
      assert NoMatchBefore(access, req, rest, fuel, k - 1) by {
        forall j | 0 <= j < k - 1
          ensures rest[j].RuleObject? && Matching(access, req, Some(rest[j].rule), fuel) == Ok(false)
        {
          assert rest[j] == entries[j + 1];
        }
      }
      NonMatchingPrefixSkipped(access, defaultPolicy, req, rest, fuel, k - 1);
      assert rest[k - 1..] == entries[k..];
      assert entries[0].RuleObject? && Matching(access, req, Some(entries[0].rule), fuel) == Ok(false);
    }
  }

  /** First match wins: when the rule at index `k` is the first that
      matches, the result is its policy if supported and the default
      otherwise, whatever the rules after it are, malformed ones included. */
  lemma FirstMatchWins(access: Accessor, defaultPolicy: Value, req: Request, entries: seq<Entry>, fuel: nat, k: nat)
    requires k < |entries| && NoMatchBefore(access, req, entries, fuel, k)
    requires entries[k].RuleObject? && Matching(access, req, Some(entries[k].rule), fuel) == Ok(true)
    ensures Resolve(access, defaultPolicy, req, entries, fuel) == Ok(Selected(entries[k].rule.policy, defaultPolicy))
  {
    NonMatchingPrefixSkipped(access, defaultPolicy, req, entries, fuel, k);
    assert entries[k..][0] == entries[k];
  }

  /** When every element is a rule object and none matches, the default
      policy is the result; in particular for an empty rule array. */
  lemma {:induction false} NoMatchGivesDefault(access: Accessor, defaultPolicy: Value, req: Request, entries: seq<Entry>, fuel: nat)
    requires NoMatchBefore(access, req, entries, fuel, |entries|)
    ensures Resolve(access, defaultPolicy, req, entries, fuel) == Ok(defaultPolicy)
  {
    NonMatchingPrefixSkipped(access, defaultPolicy, req, entries, fuel, |entries|);
  }

  /** A malformed element, a `null` element, or a rule whose conditions
      cannot be read, is rejected when the scan reaches it, and only then. */
  lemma MalformedRuleRejectedWhenReached(access: Accessor, defaultPolicy: Value, req: Request,
                                         entries: seq<Entry>, fuel: nat, k: nat)
    requires k < |entries| && NoMatchBefore(access, req, entries, fuel, k)
    ensures entries[k].WrongShape? ==> Resolve(access, defaultPolicy, req, entries, fuel) == Err(BadRuleFormat)
    ensures entries[k].NullEntry? ==> Resolve(access, defaultPolicy, req, entries, fuel) == Err(NullRule)
    ensures entries[k].RuleObject? && entries[k].rule.conditions.None? ==>
              Resolve(access, defaultPolicy, req, entries, fuel) == Err(BadConditions)
  {
    NonMatchingPrefixSkipped(access, defaultPolicy, req, entries, fuel, k);
    assert entries[k..][0] == entries[k];
  }

  /** The scan over the rules raises only the errors of the rules
      themselves: a malformed or `null` element, unreadable conditions, or a
      too-deep matcher chain. */
  lemma {:induction false} ScanErrors(access: Accessor, defaultPolicy: Value, req: Request, entries: seq<Entry>, fuel: nat)
    ensures Resolve(access, defaultPolicy, req, entries, fuel).Err? ==>
              Resolve(access, defaultPolicy, req, entries, fuel).error in {BadRuleFormat, NullRule, BadConditions, TooDeep}
    decreases entries
  {
    if entries != [] && entries[0].RuleObject? {
      var conds := entries[0].rule.conditions;
      if conds.Some? {
        MatchFieldsIsConjunction(access, req, conds.value, fuel);
      }
      ScanErrors(access, defaultPolicy, req, entries[1..], fuel);
    }
  }

  /** `applyRules` throws the array error exactly when `rules` is not an
      array, whatever the request (that test comes first), and the request
      error exactly when `rules` is an array and the request is `null` or
      `undefined`; any other request, headers or not, reaches the scan, and
      an empty array gives the default policy. */
  lemma InputValidation(access: Accessor, defaultPolicy: Value, req: Option<Request>, rules: RuleSet, fuel: nat)
    ensures Decide(access, defaultPolicy, req, rules, fuel) == Err(RulesNotArray) <==> rules.NotAnArray?
    ensures Decide(access, defaultPolicy, req, rules, fuel) == Err(NullRequest) <==> rules.RuleArray? && req.None?
    ensures req.Some? && rules == RuleArray([]) ==> Decide(access, defaultPolicy, req, rules, fuel) == Ok(defaultPolicy)
  {
    if rules.RuleArray? && req.Some? {
      ScanErrors(access, defaultPolicy, req.value, rules.entries, fuel);
    }
  }

  /** The scan returns either the default policy or the supported policy of
      a matching rule. */
  lemma {:induction false} ResolveInDomain(access: Accessor, defaultPolicy: Value, req: Request, entries: seq<Entry>, fuel: nat)
    ensures Resolve(access, defaultPolicy, req, entries, fuel).Ok? ==>
              var p := Resolve(access, defaultPolicy, req, entries, fuel).value;
              p == defaultPolicy || IsPolicySupported(Some(p))
    decreases entries
  {
    if entries != [] && entries[0].RuleObject? {
      ResolveInDomain(access, defaultPolicy, req, entries[1..], fuel);
    }
  }

  /** With a supported default policy, every policy `applyRules` returns is
      DROP (0) or ACCEPT (1). */
  lemma DecisionInDomain(access: Accessor, defaultPolicy: Value, req: Option<Request>, rules: RuleSet, fuel: nat)
    requires IsPolicySupported(Some(defaultPolicy))
    ensures Decide(access, defaultPolicy, req, rules, fuel).Ok? ==>
              Decide(access, defaultPolicy, req, rules, fuel).value in {Num(DROP), Num(ACCEPT)}
  {
    if rules.RuleArray? && req.Some? {
      ResolveInDomain(access, defaultPolicy, req.value, rules.entries, fuel);
      var r := Decide(access, defaultPolicy, req, rules, fuel);
      if r.Ok? {
        SupportedPolicies(Some(r.value));
      }
    }
    SupportedPolicies(Some(defaultPolicy));
  }


  /** A matching rule whose policy is written by name (`'DROP'`) instead of
      by code is not obeyed: the lookup is by code, so the default decides. */
  lemma NamedPolicyFallsBack(access: Accessor, defaultPolicy: Value, req: Request, conds: seq<Condition>,
                             later: seq<Entry>, fuel: nat)
    requires MatchFields(access, req, conds, fuel) == Ok(true)
    ensures Resolve(access, defaultPolicy, req, [RuleObject(Rule(None, Some(Str("DROP")), Some(conds)))] + later, fuel)
            == Ok(defaultPolicy)
  {
  }

  /** A rule dropping POST or GET requests under `/api/`, on an engine whose
      default is ACCEPT: a POST there is dropped, a PUT there is accepted. */
  lemma ApiScenario(apiPrefix: string -> bool)
    requires apiPrefix("/api/users")
    ensures
      var methods := Seq([Lit(Some(Str("POST"))), Lit(Some(Str("GET")))]);
      var rule := Rule(None, Some(Num(DROP)),
                       Some([Condition("method", methods), Condition("url", Pattern(apiPrefix))]));
      var post := Request(0, Some(map["method" := Str("POST"), "url" := Str("/api/users")]));
      var put := Request(1, Some(map["method" := Str("PUT"), "url" := Str("/api/users")]));
      Decide(DefaultAccessor, Num(ACCEPT), Some(post), RuleArray([RuleObject(rule)]), 0) == Ok(Num(DROP)) &&
      Decide(DefaultAccessor, Num(ACCEPT), Some(put), RuleArray([RuleObject(rule)]), 0) == Ok(Num(ACCEPT))
  {
    var methods := Seq([Lit(Some(Str("POST"))), Lit(Some(Str("GET")))]);
    var conds := [Condition("method", methods), Condition("url", Pattern(apiPrefix))];
    var post := Request(0, Some(map["method" := Str("POST"), "url" := Str("/api/users")]));
    var put := Request(1, Some(map["method" := Str("PUT"), "url" := Str("/api/users")]));
    assert Check(methods, Some(Str("POST")), 0) == Some(true) by {
      assert Check(methods.items[0], Some(Str("POST")), 0) == Some(true);
      AnyFromTrue(methods.items[1..], Str("POST"), 0);
    }
    assert Check(methods, Some(Str("PUT")), 0) == Some(false) by {
      assert Str("PUT") != Str("POST") && Str("PUT") != Str("GET");
      assert methods.items[1..][1..] == [];
    }
    assert DefaultAccessor(post, "method") == Some(Str("POST"));
    assert DefaultAccessor(put, "method") == Some(Str("PUT"));
    assert DefaultAccessor(post, "url") == Some(Str("/api/users"));
    assert MatchFields(DefaultAccessor, post, conds[1..], 0) == Ok(true);
    assert MatchFields(DefaultAccessor, post, conds, 0) == Ok(true);
    assert MatchFields(DefaultAccessor, put, conds, 0) == Ok(false);
    var rule := Rule(None, Some(Num(DROP)), Some(conds));
    SupportedPolicies(Some(Num(DROP)));
    assert Resolve(DefaultAccessor, Num(ACCEPT), post, [RuleObject(rule)], 0) == Ok(Num(DROP));
    assert Resolve(DefaultAccessor, Num(ACCEPT), put, [RuleObject(rule)], 0) == Ok(Num(ACCEPT)) by {
      assert [RuleObject(rule)][1..] == [];
    }
  }

  /** The engine object built by `HTTPTables(options)`. */
  class Engine {
    var rules: RuleSet
    var defaultPolicy: Value
    var accessField: Accessor

    /** The default policy is always one the engine supports. */
    ghost predicate Valid()
      reads this
    {
      IsPolicySupported(Some(defaultPolicy))
    }

    /** `options || {}`; the engine keeps `options.rules`, keeps
        `options.defaultPolicy` only when it is a supported policy and uses
        ACCEPT otherwise, and starts with the header accessor. */
    constructor (options: Option<Options>)
      ensures Valid()
      ensures rules == (if options.Some? then options.value.rules else NotAnArray)
      ensures options.Some? && IsPolicySupported(options.value.defaultPolicy) ==>
                defaultPolicy == options.value.defaultPolicy.value
      ensures !(options.Some? && IsPolicySupported(options.value.defaultPolicy)) ==>
                defaultPolicy == Num(ACCEPT)
      ensures accessField == DefaultAccessor
    {
      var opts := if options.Some? then options.value else Options(NotAnArray, None);
      rules := opts.rules;
      SupportedPolicies(opts.defaultPolicy);
      SupportedPolicies(Some(Num(ACCEPT)));
      defaultPolicy := if IsPolicySupported(opts.defaultPolicy) then opts.defaultPolicy.value else Num(ACCEPT);
      accessField := DefaultAccessor;
    }

    /** `setAccessFieldFunction`: a non-function is refused and nothing
        changes; a function becomes the accessor. */
    method SetAccessFieldFunction(arg: AccessorArg) returns (err: Option<Error>)
      modifies this`accessField
      ensures rules == old(rules) && defaultPolicy == old(defaultPolicy) && Valid() == old(Valid())
      ensures arg.NotCallable? ==> err == Some(AccessorNotFunction) && accessField == old(accessField)
      ensures arg.Callable? ==> err == None && accessField == arg.f
    {
      if arg.NotCallable? {
        return Some(AccessorNotFunction);
      }
      accessField := arg.f;
      return None;
    }

    /** `isMatching(req, rule)`: the fields in order, returning false at the
        first failing one without reading the later ones. */
    method IsMatching(req: Request, rule: Option<Rule>, fuel: nat) returns (r: Result<bool>)
      ensures r == Matching(accessField, req, rule, fuel)
    {
      var conds := ConditionsOf(rule);
      if conds.None? {
        return Err(BadConditions);
      }
      var fields := conds.value;
      var i := 0;
      while i < |fields|
        invariant 0 <= i <= |fields|
        invariant MatchFields(accessField, req, fields, fuel) == MatchFields(accessField, req, fields[i..], fuel)
      {
        var c := Check(fields[i].matcher, accessField(req, fields[i].field), fuel);
        if c.None? {
          return Err(TooDeep);
        }
        if !c.value {
          return Ok(false);
        }
        i := i + 1;
      }
      return Ok(true);
    }

    /** `applyRules(req, rules)`: validates its arguments, then scans the
        rules in order; the first matching rule decides. It changes no field
        of the engine. */
    method ApplyRules(req: Option<Request>, rules: RuleSet, fuel: nat) returns (r: Result<Value>)
      ensures r == Decide(accessField, defaultPolicy, req, rules, fuel)
      ensures Valid() && r.Ok? ==> r.value in {Num(DROP), Num(ACCEPT)}
    {
      if Valid() {
        DecisionInDomain(accessField, defaultPolicy, req, rules, fuel);
      }
      if rules.NotAnArray? {
        return Err(RulesNotArray);
      }
      if req.None? {
        return Err(NullRequest);
      }
      var entries := rules.entries;
      var i := 0;
      while i < |entries|
        invariant 0 <= i <= |entries|
        invariant Resolve(accessField, defaultPolicy, req.value, entries, fuel) ==
                  Resolve(accessField, defaultPolicy, req.value, entries[i..], fuel)
      {
        if entries[i].WrongShape? {
          return Err(BadRuleFormat);
        }
        if entries[i].NullEntry? {
          return Err(NullRule);
        }
        var rule := Some(entries[i].rule);
        var matching := IsMatching(req.value, rule, fuel);
        if matching.Err? {
          return Err(matching.error);
        }
        if matching.value {
          return Ok(Selected(rule.value.policy, defaultPolicy));
        }
        i := i + 1;
      }
      return Ok(defaultPolicy);
    }

    /** `test(req)`: the engine's own rules applied to `req`. */
    method Test(req: Option<Request>, fuel: nat) returns (r: Result<Value>)
      ensures r == Decide(accessField, defaultPolicy, req, rules, fuel)
      ensures Valid() && r.Ok? ==> r.value in {Num(DROP), Num(ACCEPT)}
    {
      r := ApplyRules(req, rules, fuel);
    }
  }
}
