/** Firewall rules of a user: when a rule matches a request, and which rule decides. */
module Rules {
  import opened Wrappers
  import opened DomainLabels

  datatype FirewallRule = FirewallRule(id: string, userId: string, name: Option<string>, ruleType: string,
                                       pattern: string, action: string, enabled: bool)

  datatype RuleMatchContext = RuleMatchContext(destinationHost: string, destinationIp: Option<string>)

  datatype RuleMatchResult = RuleMatchResult(ruleId: string, ruleName: Option<string>, ruleType: string,
                                             pattern: string, action: string)

  /** The text functions of the platform; nothing is assumed about them. */
  datatype Text = Text(lower: string -> string, trim: string -> string)

  predicate MatchesDomainRule(host: string, pattern: string, text: Text) {
    var normalizedHost := text.lower(host);
    var normalizedPattern := text.lower(pattern);
    normalizedHost == normalizedPattern || IsSuffix("." + normalizedPattern, normalizedHost)
  }

  predicate MatchesIpRule(hostOrIp: string, destinationIp: Option<string>, pattern: string, text: Text) {
    var normalizedPattern := text.trim(pattern);
    || (destinationIp.Some? && destinationIp.value != "" && destinationIp.value == normalizedPattern)
    || hostOrIp == normalizedPattern
  }

  predicate RuleMatchesContext(rule: FirewallRule, context: RuleMatchContext, text: Text) {
    && rule.enabled
    && if rule.ruleType == "DOMAIN" then MatchesDomainRule(context.destinationHost, rule.pattern, text)
       else if rule.ruleType == "IP" then
         MatchesIpRule(context.destinationHost, context.destinationIp, rule.pattern, text)
       else false
  }

  /** The character test of a domain rule is a test on labels: the pattern's labels end the host's labels. */
  lemma DomainRuleIsLabelSuffix(host: string, pattern: string, text: Text)
    ensures MatchesDomainRule(host, pattern, text) <==>
            IsSuffix(Labels(text.lower(pattern)), Labels(text.lower(host)))
  {
    var h, p := text.lower(host), text.lower(pattern);
    if h != p && IsSuffix("." + p, h) {
      NameSuffixIsLabelSuffix(h, p);
    }
    if IsSuffix(Labels(p), Labels(h)) {
      LabelSuffixIsNameSuffix(h, p);
    }
  }

  lemma NameSuffixIsLabelSuffix(h: string, p: string)
    requires IsSuffix("." + p, h)
    ensures IsSuffix(Labels(p), Labels(h))
  {
    var front := h[..|h| - |p| - 1];
    assert h == front + ("." + p);
    LabelsOfJoinedNames(front, p);
  }

  lemma LabelSuffixIsNameSuffix(h: string, p: string)
    requires IsSuffix(Labels(p), Labels(h))
    ensures h == p || IsSuffix("." + p, h)
  {
    var front := Labels(h)[..|Labels(h)| - |Labels(p)|];
    assert Labels(h) == front + Labels(p);
    LabelsSplitAtDots(h);
    LabelsSplitAtDots(p);
    if front != [] {
      JoinOfParts(front, Labels(p));
    } else {
      assert Labels(h) == Labels(p);
    }
  }

  /** A rule for a domain matches everything that a rule for one of its subdomains matches. */
  lemma ParentRuleCoversSubdomainRule(host: string, subdomain: string, parent: string, text: Text)
    requires MatchesDomainRule(subdomain, parent, text)
    requires MatchesDomainRule(host, subdomain, text)
    ensures MatchesDomainRule(host, parent, text)
  {
  }

  // ----- the decision -----

  /** The user's enabled rules, oldest first, as the query returns them. */
  function EnabledRules(rows: seq<FirewallRule>, userId: string): seq<FirewallRule> {
    if rows == [] then []
    else
      (if rows[0].userId == userId && rows[0].enabled then [rows[0]] else []) + EnabledRules(rows[1..], userId)
  }

  function FindRule(rules: seq<FirewallRule>, action: string, context: RuleMatchContext, text: Text): Option<FirewallRule> {
    if rules == [] then None
    else if rules[0].action == action && RuleMatchesContext(rules[0], context, text) then Some(rules[0])
    else FindRule(rules[1..], action, context, text)
  }

  function ToRuleMatchResult(rule: FirewallRule): RuleMatchResult {
    RuleMatchResult(rule.id, rule.name, rule.ruleType, rule.pattern, rule.action)
  }

  /** `resolve` is the address the name server gives, asked for only if it can matter. */
  function WithResolvedIp(rules: seq<FirewallRule>, context: RuleMatchContext, resolve: Option<string>): RuleMatchContext {
    if context.destinationIp.Some? || !exists i :: 0 <= i < |rules| && rules[i].ruleType == "IP" then context
    else context.(destinationIp := resolve)
  }

  function Decide(rules: seq<FirewallRule>, context: RuleMatchContext, text: Text): Option<RuleMatchResult> {
    var blockMatch := FindRule(rules, "BLOCK", context, text);
    if blockMatch.Some? then Some(ToRuleMatchResult(blockMatch.value))
    else
      var allowMatch := FindRule(rules, "ALLOW", context, text);
      if allowMatch.Some? then Some(ToRuleMatchResult(allowMatch.value)) else None
  }

  function EvaluateRules(rows: seq<FirewallRule>, userId: string, context: RuleMatchContext,
                         resolve: Option<string>, text: Text): Option<RuleMatchResult>
  {
    var rules := EnabledRules(rows, userId);
    if rules == [] then None
    else Decide(rules, WithResolvedIp(rules, context, resolve), text)
  }

  /** Some rule of this user, enabled and with this action, matches. */
  ghost predicate SomeMatch(rows: seq<FirewallRule>, userId: string, action: string, context: RuleMatchContext, text: Text) {
    exists rule :: rule in multiset(rows) && rule.userId == userId && rule.action == action
                   && RuleMatchesContext(rule, context, text)
  }

  lemma {:induction false} EnabledRulesMembers(rows: seq<FirewallRule>, userId: string, rule: FirewallRule)
    ensures rule in EnabledRules(rows, userId) <==> rule in rows && rule.userId == userId && rule.enabled
  {
    if rows == [] {
    } else {
      EnabledRulesMembers(rows[1..], userId, rule);
    }
  }

  /** The search finds the first of the matching rules, and fails only if there is none. */
  lemma {:induction false} FindRuleFindsFirst(rules: seq<FirewallRule>, action: string, context: RuleMatchContext, text: Text)
    returns (k: nat)
    ensures k <= |rules|
    ensures forall i :: 0 <= i < k ==> !(rules[i].action == action && RuleMatchesContext(rules[i], context, text))
    ensures FindRule(rules, action, context, text) == if k < |rules| then Some(rules[k]) else None
    ensures k < |rules| ==> rules[k].action == action && RuleMatchesContext(rules[k], context, text)
  {
    if rules == [] || (rules[0].action == action && RuleMatchesContext(rules[0], context, text)) {
      k := 0;
    } else {
      k := FindRuleFindsFirst(rules[1..], action, context, text);
      k := k + 1;
    }
  }

  lemma FindRuleFindsSome(rows: seq<FirewallRule>, userId: string, action: string, context: RuleMatchContext, text: Text)
    ensures FindRule(EnabledRules(rows, userId), action, context, text).Some? <==>
            SomeMatch(rows, userId, action, context, text)
    ensures var found := FindRule(EnabledRules(rows, userId), action, context, text);
            found.Some? ==> found.value.action == action
  {
    var rules := EnabledRules(rows, userId);
    var k := FindRuleFindsFirst(rules, action, context, text);
    if k < |rules| {
      EnabledRulesMembers(rows, userId, rules[k]);
    }
    forall rule | rule in multiset(rows) && rule.userId == userId && rule.action == action
                  && RuleMatchesContext(rule, context, text)
      ensures k < |rules|
    {
      EnabledRulesMembers(rows, userId, rule);
      var i :| 0 <= i < |rules| && rules[i] == rule;
    }
  }

  lemma {:induction false} IpIgnoredWithoutIpRules(rules: seq<FirewallRule>, action: string, context: RuleMatchContext,
                                                   resolve: Option<string>, text: Text)
    requires forall i :: 0 <= i < |rules| ==> rules[i].ruleType != "IP"
    ensures FindRule(rules, action, context, text) == FindRule(rules, action, context.(destinationIp := resolve), text)
  {
    if rules == [] {
    } else {
      IpIgnoredWithoutIpRules(rules[1..], action, context, resolve, text);
    }
  }

  /** The context with the name server always asked for an address that is not there yet. */
  function AlwaysResolved(context: RuleMatchContext, resolve: Option<string>): RuleMatchContext {
    if context.destinationIp.Some? then context else context.(destinationIp := resolve)
  }

  /** Asking the name server only when an IP rule exists decides as if it had always been asked. */
  lemma LazyResolutionIsInvisible(rows: seq<FirewallRule>, userId: string, context: RuleMatchContext,
                                  resolve: Option<string>, text: Text)
    ensures EvaluateRules(rows, userId, context, resolve, text) ==
            Decide(EnabledRules(rows, userId), AlwaysResolved(context, resolve), text)
  {
    var rules := EnabledRules(rows, userId);
    if !exists i :: 0 <= i < |rules| && rules[i].ruleType == "IP" {
      IpIgnoredWithoutIpRules(rules, "BLOCK", context, resolve, text);
      IpIgnoredWithoutIpRules(rules, "ALLOW", context, resolve, text);
    }
  }

  /** The action taken, if any. */
  function Action(r: Option<RuleMatchResult>): Option<string> {
    if r.Some? then Some(r.value.action) else None
  }

  /** Block wins over allow, and allow over nothing; only whether matching rules exist counts. */
  lemma BlockBeatsAllow(rows: seq<FirewallRule>, userId: string, context: RuleMatchContext, resolve: Option<string>, text: Text)
    ensures var c := AlwaysResolved(context, resolve);
            Action(EvaluateRules(rows, userId, context, resolve, text)) ==
            if SomeMatch(rows, userId, "BLOCK", c, text) then Some("BLOCK")
            else if SomeMatch(rows, userId, "ALLOW", c, text) then Some("ALLOW")
            else None
  {
    LazyResolutionIsInvisible(rows, userId, context, resolve, text);
    FindRuleFindsSome(rows, userId, "BLOCK", AlwaysResolved(context, resolve), text);
    FindRuleFindsSome(rows, userId, "ALLOW", AlwaysResolved(context, resolve), text);
  }

  /** The decision does not depend on the order in which the rules were created. */
  lemma DecisionIgnoresRuleOrder(rows: seq<FirewallRule>, rows': seq<FirewallRule>, userId: string,
                                 context: RuleMatchContext, resolve: Option<string>, text: Text)
    requires multiset(rows) == multiset(rows')
    ensures Action(EvaluateRules(rows, userId, context, resolve, text)) ==
            Action(EvaluateRules(rows', userId, context, resolve, text))
  {
    BlockBeatsAllow(rows, userId, context, resolve, text);
    BlockBeatsAllow(rows', userId, context, resolve, text);
  }

  // ----- what is blocked and what is allowed, rule by rule -----

  /** The host's labels end with those of the pattern; or the trimmed pattern is the host, or its address. */
  predicate Covers(rule: FirewallRule, host: string, address: Option<string>, text: Text) {
    if rule.ruleType == "DOMAIN" then IsSuffix(Labels(text.lower(rule.pattern)), Labels(text.lower(host)))
    else
      && rule.ruleType == "IP"
      && var pattern := text.trim(rule.pattern);
         pattern == host || (pattern != "" && address == Some(pattern))
  }

  ghost predicate SomeCovers(rows: seq<FirewallRule>, userId: string, action: string, host: string, address: Option<string>, text: Text) {
    exists i :: 0 <= i < |rows| && rows[i].userId == userId && rows[i].enabled && rows[i].action == action
                && Covers(rows[i], host, address, text)
  }

  lemma MatchingIsCovering(rule: FirewallRule, context: RuleMatchContext, text: Text)
    ensures RuleMatchesContext(rule, context, text) <==>
            rule.enabled && Covers(rule, context.destinationHost, context.destinationIp, text)
  {
    DomainRuleIsLabelSuffix(context.destinationHost, rule.pattern, text);
  }

  lemma SomeMatchCovers(rows: seq<FirewallRule>, userId: string, action: string, context: RuleMatchContext, text: Text)
    ensures SomeMatch(rows, userId, action, context, text) <==>
            SomeCovers(rows, userId, action, context.destinationHost, context.destinationIp, text)
  {
    forall rule ensures RuleMatchesContext(rule, context, text) <==>
                        rule.enabled && Covers(rule, context.destinationHost, context.destinationIp, text)
    {
      MatchingIsCovering(rule, context, text);
    }
    forall i | 0 <= i < |rows| ensures rows[i] in multiset(rows) {
    }
    if SomeMatch(rows, userId, action, context, text) {
      var rule :| rule in multiset(rows) && rule.userId == userId && rule.action == action
                  && RuleMatchesContext(rule, context, text);
      assert rule in rows;
    }
  }

  /**
   * Exactly what is blocked and allowed: a request that comes without an address gets the one the name server
   * gives; an enabled BLOCK rule of the user that covers host or address blocks, and else an ALLOW rule allows.
   */
  lemma DecidedByCoveringRules(rows: seq<FirewallRule>, userId: string, context: RuleMatchContext, resolve: Option<string>, text: Text)
    ensures var host := context.destinationHost;
            var address := if context.destinationIp.Some? then context.destinationIp else resolve;
            var action := Action(EvaluateRules(rows, userId, context, resolve, text));
            && (action == Some("BLOCK") <==> SomeCovers(rows, userId, "BLOCK", host, address, text))
            && (action == Some("ALLOW") <==> SomeCovers(rows, userId, "ALLOW", host, address, text) && action != Some("BLOCK"))
            && (action.Some? ==> action.value in {"BLOCK", "ALLOW"})
  {
    BlockBeatsAllow(rows, userId, context, resolve, text);
    SomeMatchCovers(rows, userId, "BLOCK", AlwaysResolved(context, resolve), text);
    SomeMatchCovers(rows, userId, "ALLOW", AlwaysResolved(context, resolve), text);
  }

  /** A blocking rule for the resolved address blocks the host under any name. */
  lemma AddressRuleBlocksEveryName(rows: seq<FirewallRule>, i: nat, userId: string, host: string, address: string, text: Text)
    requires i < |rows| && rows[i].userId == userId && rows[i].enabled && rows[i].action == "BLOCK"
    requires rows[i].ruleType == "IP" && text.trim(rows[i].pattern) == address && address != ""
    ensures Action(EvaluateRules(rows, userId, RuleMatchContext(host, None), Some(address), text)) == Some("BLOCK")
  {
    DecidedByCoveringRules(rows, userId, RuleMatchContext(host, None), Some(address), text);
  }

  /** The report names this rule, which is one of the user's enabled ones and matches. */
  predicate ReportOf(r: RuleMatchResult, rule: FirewallRule, userId: string, context: RuleMatchContext, text: Text) {
    && (r.ruleId, r.ruleName) == (rule.id, rule.name)
    && (r.ruleType, r.pattern, r.action) == (rule.ruleType, rule.pattern, rule.action)
    && rule.userId == userId && rule.enabled && RuleMatchesContext(rule, context, text)
  }

  /** What is reported is one of the user's own enabled rules, field by field. */
  lemma ReportsARuleOfTheUser(rows: seq<FirewallRule>, userId: string, context: RuleMatchContext, resolve: Option<string>, text: Text)
    ensures var r := EvaluateRules(rows, userId, context, resolve, text);
            r.Some? ==> exists i :: 0 <= i < |rows| && ReportOf(r.value, rows[i], userId, AlwaysResolved(context, resolve), text)
  {
    LazyResolutionIsInvisible(rows, userId, context, resolve, text);
    var rules, c := EnabledRules(rows, userId), AlwaysResolved(context, resolve);
    var k := FindRuleFindsFirst(rules, "BLOCK", c, text);
    var m := FindRuleFindsFirst(rules, "ALLOW", c, text);
    if k < |rules| {
      EnabledRulesMembers(rows, userId, rules[k]);
    } else if m < |rules| {
      EnabledRulesMembers(rows, userId, rules[m]);
    }
  }
}
