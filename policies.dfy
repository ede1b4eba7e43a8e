/** The policy table: the closed set of decisions the engine can return. */
module Policies {
  import opened Values

  const DROP: int := 0
  const ACCEPT: int := 1

  /** `HTTPTables.policies`: policy names mapped to the codes the engine returns. */
  const PolicyTable: map<string, int> := map["DROP" := DROP, "ACCEPT" := ACCEPT]

  /** `isPolicySupported`: some entry of the table has a code strictly equal
      to `policy`. The lookup is by code, never by name. */
  predicate IsPolicySupported(policy: Option<Value>)
  {
    exists name :: name in PolicyTable && policy == Some(Num(PolicyTable[name]))
  }

  /** The supported policies are exactly the two codes 0 and 1; in
      particular a policy given by its name is not supported. */
  lemma SupportedPolicies(policy: Option<Value>)
    ensures IsPolicySupported(policy) <==> policy == Some(Num(DROP)) || policy == Some(Num(ACCEPT))
    ensures !IsPolicySupported(Some(Str("DROP"))) && !IsPolicySupported(Some(Str("ACCEPT")))
  {
    if policy == Some(Num(DROP)) {
      assert "DROP" in PolicyTable;
    } else if policy == Some(Num(ACCEPT)) {
      assert "ACCEPT" in PolicyTable;
    }
  }
}
