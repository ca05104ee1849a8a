/** The policy engine: the first rule of the bundle that matches a step decides about it. */
module Policies {
  import opened Text
  import opened StepReferences
  import opened RunRecords

  datatype PolicyRule = PolicyRule(
    id: string,
    description: string,
    tool: Option<string>,
    argsRegex: Option<string>,
    domainNotIn: Option<seq<string>>,
    action: Decision,
    severity: Severity,
    category: string)

  datatype Policy = Policy(id: string, description: string, default: Decision, rules: seq<PolicyRule>)

  datatype Verdict = Verdict(decision: Decision, rule: Option<PolicyRule>, reason: string)

  predicate DomainRuleMatches(w: Foreign, allowed: seq<string>, args: Args) {
    match Lookup(args, "url")
    case Some(Str(url)) => w.urlHost(url) !in allowed
    case _ => false
  }

  predicate Matches(w: Foreign, rule: PolicyRule, tool: string, args: Args) {
    && (rule.tool.Some? ==> rule.tool.value == tool)
    && (rule.argsRegex.Some? ==> w.regexFound(rule.argsRegex.value, args))
    && (rule.domainNotIn.Some? ==> DomainRuleMatches(w, rule.domainNotIn.value, args))
  }

  function RuleVerdict(rule: PolicyRule, tool: string): Verdict {
    Verdict(rule.action, Some(rule),
            if rule.description != "" then rule.description
            else "rule " + rule.id + " matched tool " + tool)
  }

  function EvaluateFrom(w: Foreign, policy: Policy, i: nat, tool: string, args: Args): (v: Verdict)
    requires i <= |policy.rules|
    requires forall j :: 0 <= j < i ==> !Matches(w, policy.rules[j], tool, args)
    ensures v.rule.None? <==> forall r :: r in policy.rules ==> !Matches(w, r, tool, args)
    ensures v.rule.None? ==> v.decision == policy.default
    ensures v.rule.Some? ==>
              exists i :: 0 <= i < |policy.rules| && v.rule == Some(policy.rules[i])
                && v.decision == policy.rules[i].action
                && Matches(w, policy.rules[i], tool, args)
                && forall j :: 0 <= j < i ==> !Matches(w, policy.rules[j], tool, args)
    decreases |policy.rules| - i
  {
    if i == |policy.rules| then Verdict(policy.default, None, "no rule matched; bundle default applied")
    else if Matches(w, policy.rules[i], tool, args) then
      assert policy.rules[i] in policy.rules;
      RuleVerdict(policy.rules[i], tool)
    else EvaluateFrom(w, policy, i + 1, tool, args)
  }

  /** The search runs through the rules in order and stops at the first match; only when there is
      none does the bundle's default apply. */
  function Evaluate(w: Foreign, policy: Policy, tool: string, args: Args): (v: Verdict)
    ensures v.rule.None? <==> forall r :: r in policy.rules ==> !Matches(w, r, tool, args)
    ensures v.rule.None? ==> v.decision == policy.default
    ensures v.rule.Some? ==>
              exists i :: 0 <= i < |policy.rules| && v.rule == Some(policy.rules[i])
                && v.decision == policy.rules[i].action
                && Matches(w, policy.rules[i], tool, args)
                && forall j :: 0 <= j < i ==> !Matches(w, policy.rules[j], tool, args)
  {
    EvaluateFrom(w, policy, 0, tool, args)
  }
}
