/** Rewriting a mihomo rule list: the protection prefix, inlining of rule providers, replacement of
    DIRECT by the guarded outbound, and why the rewrite keeps the meaning of the list. */
module MihomoRules {
  import opened Options

  /** A piece of a rule line between commas. */
  type Part = s: string | ',' !in s

  /** An element of a rule array: a comma-separated line, or something that is not a string. */
  datatype Entry = Line(parts: seq<Part>) | NotText

  /** A rule provider; its payload is None when it cannot be read. */
  datatype Provider = Provider(behavior: string, payload: Option<seq<Entry>>)

  const MAX_RULES := 16384

  // ---- The rule language ----

  /** Where the guard looks for a line's target: last, or before a trailing no-resolve. */
  function TargetAt(parts: seq<Part>): int {
    var at := |parts| - 1;
    if at > 0 && parts[at] == "no-resolve" then at - 1 else at
  }

  /** Where mihomo itself reads the target: after MATCH, or after type and payload. */
  function EngineTargetAt(parts: seq<Part>): nat { if parts != [] && parts[0] == "MATCH" then 1 else 2 }

  const RULE_TYPES: seq<string> := ["DOMAIN", "DOMAIN-SUFFIX", "DOMAIN-KEYWORD", "IP-CIDR", "IP-CIDR6", "SRC-IP-CIDR", "DST-PORT",
                                    "SRC-PORT", "NETWORK", "PROCESS-NAME", "PROCESS-PATH", "MATCH"]

  function WithoutNoResolve(parts: seq<Part>): seq<Part> {
    if parts != [] && parts[|parts| - 1] == "no-resolve" then parts[..|parts| - 1] else parts
  }

  /** expectedMihomoRules: the shapes whose readback the runtime can check. */
  predicate Readable(parts: seq<Part>) {
    var core := WithoutNoResolve(parts);
    && 2 <= |core| <= 3
    && core[0] in RULE_TYPES
    && |core| == (if core[0] == "MATCH" then 2 else 3)
  }

  /** On readable lines the guard and the engine agree about the target. */
  lemma ReadersAgree(parts: seq<Part>)
    requires Readable(parts)
    ensures TargetAt(parts) == EngineTargetAt(parts) && 1 <= TargetAt(parts) < |parts|
  {
  }

  function Condition(parts: seq<Part>, at: nat): seq<Part>
    requires at < |parts|
  {
    parts[..at] + parts[at + 1..]
  }

  /** A destination is the set of conditions it meets; MATCH always holds. */
  ghost predicate Meets(destination: iset<seq<Part>>, condition: seq<Part>) {
    (condition != [] && condition[0] == "MATCH") || condition in destination
  }

  /** mihomo's verdict: the target of the first line that applies, DIRECT if none does. */
  ghost function Verdict(lines: seq<Entry>, destination: iset<seq<Part>>): string {
    if lines == [] then "DIRECT"
    else if Applies(lines[0], destination) then lines[0].parts[EngineTargetAt(lines[0].parts)]
    else Verdict(lines[1..], destination)
  }

  ghost predicate Applies(entry: Entry, destination: iset<seq<Part>>) {
    && entry.Line? && EngineTargetAt(entry.parts) < |entry.parts|
    && Meets(destination, Condition(entry.parts, EngineTargetAt(entry.parts)))
  }

  // ---- Protection prefix ----

  function HostRule(host: Part): Entry { Line(["DOMAIN-SUFFIX", host, "REJECT"]) }
  function CidrRule(cidr: Part): Entry { Line(["IP-CIDR", cidr, "REJECT"]) }

  function ProtectionPrefix(hosts: seq<Part>, cidrs: seq<Part>): seq<Entry> {
    seq(|hosts|, i requires 0 <= i < |hosts| => HostRule(hosts[i])) + seq(|cidrs|, i requires 0 <= i < |cidrs| => CidrRule(cidrs[i]))
  }

  ghost predicate IsProtected(hosts: seq<Part>, cidrs: seq<Part>, destination: iset<seq<Part>>) {
    || (exists i :: 0 <= i < |hosts| && Meets(destination, ["DOMAIN-SUFFIX", hosts[i]]))
    || (exists i :: 0 <= i < |cidrs| && Meets(destination, ["IP-CIDR", cidrs[i]]))
  }

  /** protectMihomo's two loops. */
  method Protect(hosts: seq<Part>, cidrs: seq<Part>, rules: seq<Entry>) returns (out: seq<Entry>)
    ensures out == ProtectionPrefix(hosts, cidrs) + rules
  {
    var prefix := [];
    for n := 0 to |hosts|
      invariant |prefix| == n && forall i :: 0 <= i < n ==> prefix[i] == HostRule(hosts[i])
    {
      prefix := prefix + [HostRule(hosts[n])];
    }
    for n := 0 to |cidrs|
      invariant |prefix| == |hosts| + n
      invariant forall i :: 0 <= i < |hosts| ==> prefix[i] == HostRule(hosts[i])
      invariant forall i :: 0 <= i < n ==> prefix[|hosts| + i] == CidrRule(cidrs[i])
    {
      prefix := prefix + [CidrRule(cidrs[n])];
    }
    assert prefix == ProtectionPrefix(hosts, cidrs);
    return prefix + rules;
  }

  // ---- Inlining rule providers ----

  function TrimPrefix(s: Part, prefix: string): Part {
    if prefix <= s then (assert forall i :: |prefix| <= i < |s| ==> s[i] != ','; s[|prefix|..]) else s
  }

  /** A provider entry as a condition: domain and ipcidr entries get their type, classical ones have it. */
  function EntryCondition(behavior: string, entry: seq<Part>): seq<Part> {
    match behavior
    case "domain" =>
      ["DOMAIN-SUFFIX"] + (if entry == [] then [] else [TrimPrefix(TrimPrefix(entry[0], "+."), ".")] + entry[1..])
    case "ipcidr" => ["IP-CIDR"] + entry
    case _ => entry
  }

  predicate IsRuleSet(entry: Entry) { entry.Line? && entry.parts != [] && entry.parts[0] == "RULE-SET" }

  predicate KnownBehavior(behavior: string) { behavior in ["domain", "ipcidr", "classical"] }

  function ProviderLine(behavior: string, entry: Entry, target: Part): Entry {
    Line((if entry.Line? then EntryCondition(behavior, entry.parts) else []) + [target])
  }

  /** The lines a provider contributes for a given target. */
  function ProviderLines(behavior: string, payload: seq<Entry>, target: Part): seq<Entry> {
    if payload == [] then []
    else
      ProviderLines(behavior, payload[..|payload| - 1], target) + [ProviderLine(behavior, payload[|payload| - 1], target)]
  }

  predicate ProviderOk(provider: Provider) {
    && provider.payload.Some?
    && (provider.payload.value != [] ==> KnownBehavior(provider.behavior))
    && forall i :: 0 <= i < |provider.payload.value| ==> provider.payload.value[i].Line?
  }

  /** What one rule becomes. */
  function Expansion(rule: Entry, providers: map<string, Provider>): seq<Entry> {
    if !IsRuleSet(rule) || |rule.parts| != 3 then [rule]
    else if rule.parts[1] !in providers || providers[rule.parts[1]].payload.None? then []
    else ProviderLines(providers[rule.parts[1]].behavior, providers[rule.parts[1]].payload.value, rule.parts[2])
  }

  predicate RuleOk(rule: Entry, providers: map<string, Provider>) {
    && rule.Line?
    && (rule.parts != [] ==> rule.parts[0] !in ["GEOIP", "GEOSITE", "SUB-RULE"])
    && (IsRuleSet(rule) ==> |rule.parts| == 3 && rule.parts[1] in providers && ProviderOk(providers[rule.parts[1]]))
  }

  function Expanded(rules: seq<Entry>, providers: map<string, Provider>): seq<Entry> {
    if rules == [] then [] else Expanded(rules[..|rules| - 1], providers) + Expansion(rules[|rules| - 1], providers)
  }

  /** The size limit is checked as provider lines are added. */
  predicate FitsAt(rules: seq<Entry>, providers: map<string, Provider>, n: nat)
    requires n < |rules|
  {
    IsRuleSet(rules[n]) && Expansion(rules[n], providers) != [] ==> |Expanded(rules[..n + 1], providers)| <= MAX_RULES
  }

  predicate Inlinable(rules: seq<Entry>, providers: map<string, Provider>) {
    |providers| <= 32 && forall n :: 0 <= n < |rules| ==> RuleOk(rules[n], providers) && FitsAt(rules, providers, n)
  }

  lemma ProviderLinesSnoc(behavior: string, payload: seq<Entry>, target: Part, n: nat)
    requires n < |payload|
    ensures ProviderLines(behavior, payload[..n + 1], target) ==
              ProviderLines(behavior, payload[..n], target) + [ProviderLine(behavior, payload[n], target)]
  {
    assert payload[..n + 1][..n] == payload[..n];
  }

  /** The inner loop over one provider's payload. */
  method InlineProvider(out: seq<Entry>, provider: Provider, target: Part) returns (more: Option<seq<Entry>>)
    requires provider.payload.Some?
    ensures more.Some? ==> more.value == out + ProviderLines(provider.behavior, provider.payload.value, target)
    ensures more.Some? <==> ProviderOk(provider) && (provider.payload.value == [] || |out| + |provider.payload.value| <= MAX_RULES)
  {
    var payload := provider.payload.value;
    var known := KnownBehavior(provider.behavior);
    var added := [];
    for n := 0 to |payload|
      invariant added == ProviderLines(provider.behavior, payload[..n], target)
      invariant |added| == n
      invariant n > 0 ==> |out| + n <= MAX_RULES && known
      invariant forall i :: 0 <= i < n ==> payload[i].Line?
    {
      if !payload[n].Line? || !known {
        return None;
      }
      ProviderLinesSnoc(provider.behavior, payload, target, n);
      added := added + [ProviderLine(provider.behavior, payload[n], target)];
      if |out| + |added| > MAX_RULES {
        return None;
      }
    }
    assert payload[..|payload|] == payload;
    return Some(out + added);
  }

  lemma {:induction false} ProviderLinesCount(behavior: string, payload: seq<Entry>, target: Part)
    ensures |ProviderLines(behavior, payload, target)| == |payload|
  {
    if payload != [] {
      ProviderLinesCount(behavior, payload[..|payload| - 1], target);
    }
  }

  lemma ExpandedSnoc(rules: seq<Entry>, providers: map<string, Provider>, n: nat)
    requires n < |rules|
    ensures Expanded(rules[..n + 1], providers) == Expanded(rules[..n], providers) + Expansion(rules[n], providers)
  {
    assert rules[..n + 1][..n] == rules[..n];
  }

  method InlineRules(rules: seq<Entry>, providers: map<string, Provider>) returns (out: Option<seq<Entry>>)
    ensures out.Some? <==> Inlinable(rules, providers)
    ensures out.Some? ==> out.value == Expanded(rules, providers)
  {
    if |providers| > 32 {
      return None;
    }
    var lines := [];
    for n := 0 to |rules|
      invariant forall i :: 0 <= i < n ==> RuleOk(rules[i], providers) && FitsAt(rules, providers, i)
      invariant lines == Expanded(rules[..n], providers)
    {
      ExpandedSnoc(rules, providers, n);
      var rule := rules[n];
      if rule.NotText? || (rule.parts != [] && rule.parts[0] in ["GEOIP", "GEOSITE", "SUB-RULE"]) {
        return None;
      }
      if !IsRuleSet(rule) {
        lines := lines + [rule];
      } else {
        if |rule.parts| != 3 || rule.parts[1] !in providers || providers[rule.parts[1]].payload.None? {
          return None;
        }
        var provider := providers[rule.parts[1]];
        ProviderLinesCount(provider.behavior, provider.payload.value, rule.parts[2]);
        var more := InlineProvider(lines, provider, rule.parts[2]);
        if more.None? {
          assert !RuleOk(rules[n], providers) || !FitsAt(rules, providers, n);
          return None;
        }
        lines := more.value;
      }
    }
    assert rules[..|rules|] == rules;
    return Some(lines);
  }

  // ---- Replacing DIRECT ----

  function Redirect(name: string, direct: string): string { if name == "DIRECT" then direct else name }

  predicate Guardable(entry: Entry, allowed: set<string>, direct: string) {
    entry.Line? && TargetAt(entry.parts) >= 1 && Redirect(entry.parts[TargetAt(entry.parts)], direct) in allowed
  }

  function GuardedLine(entry: Entry, direct: Part): Entry {
    if entry.Line? && TargetAt(entry.parts) >= 1 && entry.parts[TargetAt(entry.parts)] == "DIRECT"
    then Line(entry.parts[TargetAt(entry.parts) := direct]) else entry
  }

  function Guarded(entries: seq<Entry>, direct: Part): seq<Entry> {
    seq(|entries|, i requires 0 <= i < |entries| => GuardedLine(entries[i], direct))
  }

  /** guardMihomoRules: rewrites the array in place, stopping at the first line it refuses. */
  method GuardRules(rules: array<Entry>, allowed: set<string>, direct: Part) returns (ok: bool)
    modifies rules
    ensures ok <==> forall i :: 0 <= i < rules.Length ==> Guardable(old(rules[i]), allowed, direct)
    ensures ok ==> rules[..] == Guarded(old(rules[..]), direct)
  {
    for n := 0 to rules.Length
      invariant forall i :: 0 <= i < n ==> Guardable(old(rules[i]), allowed, direct) && rules[i] == GuardedLine(old(rules[i]), direct)
      invariant forall i :: n <= i < rules.Length ==> rules[i] == old(rules[i])
    {
      if rules[n].NotText? {
        return false;
      }
      var parts := rules[n].parts;
      var at := TargetAt(parts);
      if at < 1 {
        return false;
      }
      if parts[at] == "DIRECT" {
        parts := parts[at := direct];
      }
      if parts[at] !in allowed {
        return false;
      }
      rules[n] := Line(parts);
    }
    return true;
  }

  // ---- The rewrite keeps the meaning ----

  /** The verdict of the user's own list, with RULE-SET entries read as the inliner reads them. */
  ghost function UserVerdict(rules: seq<Entry>, providers: map<string, Provider>, destination: iset<seq<Part>>): string {
    if rules == [] then "DIRECT"
    else if UserApplies(rules[0], providers, destination) then rules[0].parts[EngineTargetAt(rules[0].parts)]
    else UserVerdict(rules[1..], providers, destination)
  }

  ghost predicate UserApplies(rule: Entry, providers: map<string, Provider>, destination: iset<seq<Part>>) {
    if !IsRuleSet(rule) then Applies(rule, destination)
    else |rule.parts| == 3 && rule.parts[1] in providers && InProvider(providers[rule.parts[1]], destination)
  }

  ghost predicate InProvider(provider: Provider, destination: iset<seq<Part>>) {
    provider.payload.Some? && InPayload(provider.behavior, provider.payload.value, destination)
  }

  /** What an entry of a provider stands for: of ipcidr providers, an address in that range; of domain providers, a
      host under that domain, a leading "+." or "." being mere spelling; of classical ones, its own condition. */
  ghost function Meant(behavior: string, entry: seq<Part>): seq<Part> {
    if behavior == "ipcidr" then ["IP-CIDR"] + entry
    else if behavior != "domain" then entry
    else if entry == [] then ["DOMAIN-SUFFIX"]
    else ["DOMAIN-SUFFIX", BareDomain(entry[0])] + entry[1..]
  }

  ghost function BareDomain(text: Part): Part {
    if exists bare: Part :: text == "+.." + bare then var bare: Part :| text == "+.." + bare; bare
    else if exists bare: Part :: text == "+." + bare then var bare: Part :| text == "+." + bare; bare
    else if exists bare: Part :: text == "." + bare then var bare: Part :| text == "." + bare; bare
    else text
  }

  /** Taking a leading text off is the inverse of putting it on. */
  lemma TrimInverts(text: Part, lead: string)
    ensures lead <= text ==> text == lead + TrimPrefix(text, lead)
    ensures forall bare: Part :: text == lead + bare ==> bare == TrimPrefix(text, lead)
    ensures (exists bare: Part :: text == lead + bare) <==> lead <= text
  {
    if lead <= text {
      assert text == lead + text[|lead|..];
    }
    forall bare: Part | text == lead + bare ensures bare == TrimPrefix(text, lead) {
      assert text[|lead|..] == bare;
    }
  }

  lemma TrimsToBare(text: Part)
    ensures TrimPrefix(TrimPrefix(text, "+."), ".") == BareDomain(text)
  {
    TrimInverts(text, "+..");
    TrimInverts(text, "+.");
    TrimInverts(text, ".");
    var once := TrimPrefix(text, "+.");
    TrimInverts(once, ".");
    DoubleLead(text);
    if "+.." <= text {
      assert once == "." + text[3..];
    }
  }

  lemma DoubleLead(text: Part)
    ensures "+." <= text ==> ("." <= TrimPrefix(text, "+.") <==> "+.." <= text)
  {
    if "+." <= text {
      assert "." <= text[2..] <==> |text| > 2 && text[2] == '.';
      assert "+.." <= text <==> |text| > 2 && text[2] == '.';
    }
  }

  /** The line the code writes for an entry asks just what the entry stands for. */
  lemma EntryIsMeant(behavior: string, entry: seq<Part>)
    ensures EntryCondition(behavior, entry) == Meant(behavior, entry)
  {
    if behavior == "domain" && entry != [] {
      TrimsToBare(entry[0]);
    }
  }

  ghost predicate InPayload(behavior: string, payload: seq<Entry>, destination: iset<seq<Part>>) {
    exists i :: 0 <= i < |payload| && payload[i].Line? && Meets(destination, Meant(behavior, payload[i].parts))
  }

  predicate SendsTo(entry: Entry, target: string) {
    && entry.Line? && EngineTargetAt(entry.parts) < |entry.parts|
    && entry.parts[EngineTargetAt(entry.parts)] == target
  }

  lemma {:induction false} ProviderLineAt(behavior: string, payload: seq<Entry>, target: Part, i: nat)
    requires i < |payload| && payload[i].Line?
    ensures |ProviderLines(behavior, payload, target)| == |payload|
    ensures ProviderLines(behavior, payload, target)[i] == Line(EntryCondition(behavior, payload[i].parts) + [target])
  {
    ProviderLinesCount(behavior, payload, target);
    ProviderLinesCount(behavior, payload[..|payload| - 1], target);
    if i < |payload| - 1 {
      ProviderLineAt(behavior, payload[..|payload| - 1], target, i);
    }
  }

  /** The line applies exactly when the condition holds, and then sends to the target. */
  ghost predicate ReadsAs(line: seq<Part>, condition: seq<Part>, target: Part) {
    && SendsTo(Line(line), target)
    && forall destination :: Applies(Line(line), destination) <==> Meets(destination, condition)
  }

  /** The word no-resolve is not a target, unless the entry carries that word as its own target. */
  predicate ProperPair(condition: seq<Part>, target: Part) {
    target == "no-resolve" ==> condition != [] && condition[|condition| - 1] == "no-resolve"
  }

  /** A readable inlined line asks the provider entry's condition and sends to the rule's target, exactly
      when the two make a proper pair: otherwise the entry names its own target. */
  lemma InlinedLineReads(condition: seq<Part>, target: Part)
    requires Readable(condition + [target])
    ensures ReadsAs(condition + [target], condition, target) <==> ProperPair(condition, target)
  {
    var parts := condition + [target];
    assert WithoutNoResolve(parts) == if target == "no-resolve" then condition else parts;
    var at := EngineTargetAt(parts);
    if target != "no-resolve" {
      assert Condition(parts, at) == condition;
    } else if ProperPair(condition, target) {
      assert Condition(parts, at) == condition;
    }
  }

  /** Every entry of a rule set makes a proper pair with the rule's target. */
  ghost predicate ProperTarget(rule: Entry, providers: map<string, Provider>) {
    IsRuleSet(rule) && |rule.parts| == 3 && rule.parts[1] in providers ==> ProperProvider(providers[rule.parts[1]], rule.parts[2])
  }

  ghost predicate ProperProvider(provider: Provider, target: Part) {
    provider.payload.Some? ==>
      forall i :: 0 <= i < |provider.payload.value| && provider.payload.value[i].Line? ==>
        ProperPair(Meant(provider.behavior, provider.payload.value[i].parts), target)
  }

  predicate AllReadable(lines: seq<Entry>) { forall i :: 0 <= i < |lines| ==> lines[i].Line? && Readable(lines[i].parts) }

  // ---- A rule list as this code reads it ----

  /** What one entry of a rule set decides: the rule's target under the entry's condition; but an entry that makes no
      proper pair with the target stands for itself, its own target included, with no-resolve as a modifier. */
  ghost function EntryVerdict(condition: seq<Part>, target: Part, destination: iset<seq<Part>>): Option<Part> {
    if ProperPair(condition, target) then
      if Meets(destination, condition) then Some(target) else None
    else
      var at := EngineTargetAt(condition);
      if at < |condition| && Meets(destination, condition[..at] + condition[at + 1..] + [target]) then Some(condition[at]) else None
  }

  /** The first entry of a rule set that decides. */
  ghost function SetVerdict(behavior: string, payload: seq<Entry>, target: Part, destination: iset<seq<Part>>): Option<Part> {
    if payload == [] then None
    else
      var first := if payload[0].Line? then EntryVerdict(Meant(behavior, payload[0].parts), target, destination) else None;
      if first.Some? then first else SetVerdict(behavior, payload[1..], target, destination)
  }

  ghost function RuleVerdict(rule: Entry, providers: map<string, Provider>, destination: iset<seq<Part>>): Option<Part> {
    if !IsRuleSet(rule) then
      if Applies(rule, destination) then Some(rule.parts[EngineTargetAt(rule.parts)]) else None
    else if |rule.parts| != 3 || rule.parts[1] !in providers || providers[rule.parts[1]].payload.None? then None
    else SetVerdict(providers[rule.parts[1]].behavior, providers[rule.parts[1]].payload.value, rule.parts[2], destination)
  }

  ghost function ReadVerdict(rules: seq<Entry>, providers: map<string, Provider>, destination: iset<seq<Part>>): string {
    if rules == [] then "DIRECT"
    else
      var first := RuleVerdict(rules[0], providers, destination);
      if first.Some? then first.value else ReadVerdict(rules[1..], providers, destination)
  }

  /** The verdict of the first of several lines that applies, if any. */
  ghost function LinesVerdict(lines: seq<Entry>, destination: iset<seq<Part>>): Option<Part> {
    if lines == [] then None
    else if Applies(lines[0], destination) then Some(lines[0].parts[EngineTargetAt(lines[0].parts)])
    else LinesVerdict(lines[1..], destination)
  }

  lemma {:induction false} LinesThenRest(lines: seq<Entry>, rest: seq<Entry>, destination: iset<seq<Part>>)
    ensures Verdict(lines + rest, destination) ==
              if LinesVerdict(lines, destination).Some? then LinesVerdict(lines, destination).value else Verdict(rest, destination)
  {
    if lines == [] {
      assert lines + rest == rest;
    } else {
      assert lines + rest == [lines[0]] + (lines[1..] + rest);
      VerdictCons(lines[0], lines[1..] + rest, destination);
      LinesThenRest(lines[1..], rest, destination);
    }
  }

  lemma InlinedEntryReads(condition: seq<Part>, target: Part, destination: iset<seq<Part>>)
    requires Readable(condition + [target])
    ensures EntryVerdict(condition, target, destination) == LinesVerdict([Line(condition + [target])], destination)
  {
    var parts := condition + [target];
    InlinedLineReads(condition, target);
    if !ProperPair(condition, target) {
      assert WithoutNoResolve(parts) == condition;
      var at := EngineTargetAt(condition);
      assert Condition(parts, at) == condition[..at] + condition[at + 1..] + [target];
    }
  }

  lemma {:induction false} ProviderLinesCons(behavior: string, payload: seq<Entry>, target: Part)
    requires payload != [] && forall i :: 0 <= i < |payload| ==> payload[i].Line?
    ensures ProviderLines(behavior, payload, target) ==
              [ProviderLine(behavior, payload[0], target)] + ProviderLines(behavior, payload[1..], target)
  {
    ProviderLinesCount(behavior, payload, target);
    ProviderLinesCount(behavior, payload[1..], target);
    var whole, rest := ProviderLines(behavior, payload, target), ProviderLines(behavior, payload[1..], target);
    forall i | 0 <= i < |payload| ensures whole[i] == ([ProviderLine(behavior, payload[0], target)] + rest)[i] {
      ProviderLineAt(behavior, payload, target, i);
      if i > 0 {
        ProviderLineAt(behavior, payload[1..], target, i - 1);
      }
    }
  }

  lemma {:induction false} InlinedSetReads(behavior: string, payload: seq<Entry>, target: Part, destination: iset<seq<Part>>)
    requires forall i :: 0 <= i < |payload| ==> payload[i].Line?
    requires AllReadable(ProviderLines(behavior, payload, target))
    ensures SetVerdict(behavior, payload, target, destination) == LinesVerdict(ProviderLines(behavior, payload, target), destination)
  {
    if payload != [] {
      ProviderLinesCons(behavior, payload, target);
      var first, rest := ProviderLine(behavior, payload[0], target), ProviderLines(behavior, payload[1..], target);
      AllReadableCons(first, rest);
      EntryIsMeant(behavior, payload[0].parts);
      InlinedEntryReads(EntryCondition(behavior, payload[0].parts), target, destination);
      InlinedSetReads(behavior, payload[1..], target, destination);
      LinesCons(first, rest, destination);
    }
  }

  lemma AllReadableCons(first: Entry, rest: seq<Entry>)
    requires AllReadable([first] + rest)
    ensures first.Line? && Readable(first.parts) && AllReadable(rest)
  {
    AllReadableParts([first], rest);
    assert [first][0] == first;
  }

  lemma LinesCons(first: Entry, rest: seq<Entry>, destination: iset<seq<Part>>)
    ensures LinesVerdict([first] + rest, destination) ==
              if LinesVerdict([first], destination).Some? then LinesVerdict([first], destination) else LinesVerdict(rest, destination)
  {
    assert ([first] + rest)[1..] == rest && [first][1..] == [];
  }

  lemma {:induction false} ExpansionReads(rule: Entry, providers: map<string, Provider>, destination: iset<seq<Part>>)
    requires RuleOk(rule, providers) && AllReadable(Expansion(rule, providers))
    ensures RuleVerdict(rule, providers, destination) == LinesVerdict(Expansion(rule, providers), destination)
  {
    if IsRuleSet(rule) {
      var provider := providers[rule.parts[1]];
      InlinedSetReads(provider.behavior, provider.payload.value, rule.parts[2], destination);
    } else {
      assert [rule][1..] == [];
    }
  }

  // ---- Where that is the plain reading ----

  lemma {:induction false} ProperSetReads(provider: Provider, payload: seq<Entry>, target: Part, destination: iset<seq<Part>>)
    requires forall i :: 0 <= i < |payload| && payload[i].Line? ==> ProperPair(Meant(provider.behavior, payload[i].parts), target)
    ensures SetVerdict(provider.behavior, payload, target, destination) ==
              if InPayload(provider.behavior, payload, destination) then Some(target) else None
  {
    if payload != [] {
      var rest := payload[1..];
      assert forall i :: 0 <= i < |rest| ==> rest[i] == payload[i + 1];
      ProperSetReads(provider, rest, target, destination);
      assert InPayload(provider.behavior, rest, destination) ==> InPayload(provider.behavior, payload, destination);
    }
  }

  /** With proper targets throughout, a rule set simply sends its members to the rule's target. */
  lemma {:induction false} ProperTargetsReadPlainly(rules: seq<Entry>, providers: map<string, Provider>, destination: iset<seq<Part>>)
    requires forall n :: 0 <= n < |rules| ==> RuleOk(rules[n], providers) && ProperTarget(rules[n], providers)
    ensures ReadVerdict(rules, providers, destination) == UserVerdict(rules, providers, destination)
  {
    if rules != [] {
      var rule := rules[0];
      if IsRuleSet(rule) {
        var provider := providers[rule.parts[1]];
        ProperSetReads(provider, provider.payload.value, rule.parts[2], destination);
      }
      ProperTargetsReadPlainly(rules[1..], providers, destination);
    }
  }

  lemma {:induction false} ExpandedCons(rules: seq<Entry>, providers: map<string, Provider>)
    requires rules != []
    ensures Expanded(rules, providers) == Expansion(rules[0], providers) + Expanded(rules[1..], providers)
  {
    var front, last := rules[..|rules| - 1], rules[|rules| - 1];
    if front == [] {
      assert rules[1..] == [];
    } else {
      var tail := rules[1..];
      ExpandedCons(front, providers);
      assert tail[..|tail| - 1] == front[1..] && tail[|tail| - 1] == last;
      Reassociate(Expansion(rules[0], providers), Expanded(front[1..], providers), Expansion(last, providers));
    }
  }

  lemma Reassociate(a: seq<Entry>, b: seq<Entry>, c: seq<Entry>)
    ensures (a + b) + c == a + (b + c)
  {
  }

  /** Inlining keeps every verdict. */
  lemma {:induction false} InliningKeepsVerdicts(rules: seq<Entry>, providers: map<string, Provider>, destination: iset<seq<Part>>)
    requires forall n :: 0 <= n < |rules| ==> RuleOk(rules[n], providers)
    requires AllReadable(Expanded(rules, providers))
    ensures Verdict(Expanded(rules, providers), destination) == ReadVerdict(rules, providers, destination)
  {
    if rules != [] {
      var head, tail := Expansion(rules[0], providers), Expanded(rules[1..], providers);
      ExpandedCons(rules, providers);
      AllReadableParts(head, tail);
      ExpansionReads(rules[0], providers, destination);
      InliningKeepsVerdicts(rules[1..], providers, destination);
      LinesThenRest(head, tail, destination);
    }
  }

  lemma AllReadableParts(head: seq<Entry>, tail: seq<Entry>)
    requires AllReadable(head + tail)
    ensures AllReadable(head) && AllReadable(tail)
  {
    var all := head + tail;
    assert forall i :: 0 <= i < |head| ==> all[i] == head[i];
    assert forall i :: 0 <= i < |tail| ==> all[|head| + i] == tail[i];
  }

  /** One guarded line still applies to the same destinations and goes to the redirected target. */
  lemma GuardedLineReads(entry: Entry, direct: Part, destination: iset<seq<Part>>)
    requires entry.Line? && Readable(entry.parts)
    ensures var line := GuardedLine(entry, direct);
            && (Applies(line, destination) <==> Applies(entry, destination))
            && line.Line? && EngineTargetAt(line.parts) == EngineTargetAt(entry.parts) < |line.parts|
            && line.parts[EngineTargetAt(line.parts)] == Redirect(entry.parts[EngineTargetAt(entry.parts)], direct)
  {
    ReadersAgree(entry.parts);
    var at := EngineTargetAt(entry.parts);
    var line := GuardedLine(entry, direct);
    assert line.parts[..at] == entry.parts[..at] && line.parts[at + 1..] == entry.parts[at + 1..];
  }

  lemma ClosingMatchVerdict(direct: Part, destination: iset<seq<Part>>)
    ensures Verdict([Line(["MATCH", direct])], destination) == direct
  {
    assert Condition(["MATCH", direct], 1) == ["MATCH"];
    assert Applies(Line(["MATCH", direct]), destination);
  }

  lemma GuardedCons(lines: seq<Entry>, direct: Part, closing: seq<Entry>)
    requires lines != []
    ensures Guarded(lines, direct) + closing == [GuardedLine(lines[0], direct)] + (Guarded(lines[1..], direct) + closing)
  {
  }

  lemma VerdictCons(first: Entry, rest: seq<Entry>, destination: iset<seq<Part>>)
    ensures Verdict([first] + rest, destination) ==
              if Applies(first, destination) then first.parts[EngineTargetAt(first.parts)] else Verdict(rest, destination)
  {
    assert ([first] + rest)[1..] == rest;
  }

  lemma {:induction false} GuardingRedirectsBefore(lines: seq<Entry>, direct: Part, closing: seq<Entry>, destination: iset<seq<Part>>)
    requires AllReadable(lines) && Verdict(closing, destination) == direct
    ensures Verdict(Guarded(lines, direct) + closing, destination) == Redirect(Verdict(lines, destination), direct)
  {
    if lines == [] {
      assert Guarded(lines, direct) + closing == closing;
    } else {
      var first, rest := lines[0], lines[1..];
      GuardedLineReads(first, direct, destination);
      GuardedCons(lines, direct, closing);
      VerdictCons(GuardedLine(first, direct), Guarded(rest, direct) + closing, destination);
      GuardingRedirectsBefore(rest, direct, closing, destination);
    }
  }

  lemma {:induction false} GuardingRedirectsVerdicts(lines: seq<Entry>, direct: Part, destination: iset<seq<Part>>)
    requires AllReadable(lines)
    ensures Verdict(Guarded(lines, direct) + [Line(["MATCH", direct])], destination) == Redirect(Verdict(lines, destination), direct)
  {
    ClosingMatchVerdict(direct, destination);
    GuardingRedirectsBefore(lines, direct, [Line(["MATCH", direct])], destination);
  }

  lemma {:induction false} PrefixVerdict(hosts: seq<Part>, cidrs: seq<Part>, destination: iset<seq<Part>>)
    ensures var prefix := ProtectionPrefix(hosts, cidrs);
            && (IsProtected(hosts, cidrs, destination) <==> exists i :: 0 <= i < |prefix| && Applies(prefix[i], destination))
            && (forall i :: 0 <= i < |prefix| ==> !IsRuleSet(prefix[i]) && SendsTo(prefix[i], "REJECT"))
  {
    var prefix := ProtectionPrefix(hosts, cidrs);
    forall i | 0 <= i < |hosts|
      ensures prefix[i] == HostRule(hosts[i])
      ensures Applies(prefix[i], destination) <==> Meets(destination, ["DOMAIN-SUFFIX", hosts[i]])
    {
      assert Condition(HostRule(hosts[i]).parts, 2) == ["DOMAIN-SUFFIX", hosts[i]];
    }
    forall i | 0 <= i < |cidrs|
      ensures prefix[|hosts| + i] == CidrRule(cidrs[i])
      ensures Applies(prefix[|hosts| + i], destination) <==> Meets(destination, ["IP-CIDR", cidrs[i]])
    {
      assert Condition(CidrRule(cidrs[i]).parts, 2) == ["IP-CIDR", cidrs[i]];
    }
    forall i | |hosts| <= i < |prefix| ensures prefix[i] == CidrRule(cidrs[i - |hosts|]) {
      assert prefix[|hosts| + (i - |hosts|)] == CidrRule(cidrs[i - |hosts|]);
    }
    if i :| 0 <= i < |prefix| && Applies(prefix[i], destination) {
      if i >= |hosts| {
        assert prefix[|hosts| + (i - |hosts|)] == prefix[i];
      }
    }
  }

  lemma {:induction false} RejectPrefix(prefix: seq<Entry>, rules: seq<Entry>, providers: map<string, Provider>, destination: iset<seq<Part>>)
    requires forall i :: 0 <= i < |prefix| ==> !IsRuleSet(prefix[i]) && SendsTo(prefix[i], "REJECT")
    ensures ReadVerdict(prefix + rules, providers, destination) ==
              if exists i :: 0 <= i < |prefix| && Applies(prefix[i], destination) then "REJECT"
              else ReadVerdict(rules, providers, destination)
  {
    if prefix == [] {
      assert prefix + rules == rules;
    } else {
      var all := prefix + rules;
      assert all[0] == prefix[0] && all[1..] == prefix[1..] + rules;
      if !Applies(prefix[0], destination) {
        RejectPrefix(prefix[1..], rules, providers, destination);
        if i :| 0 <= i < |prefix| && Applies(prefix[i], destination) {
          assert prefix[1..][i - 1] == prefix[i];
        }
        if i :| 0 <= i < |prefix[1..]| && Applies(prefix[1..][i], destination) {
          assert prefix[i + 1] == prefix[1..][i];
        }
      }
    }
  }

  /** The whole rule pipeline: protect, inline, replace DIRECT, close with MATCH. */
  function Rewritten(hosts: seq<Part>, cidrs: seq<Part>, rules: seq<Entry>, providers: map<string, Provider>, direct: Part): seq<Entry> {
    Guarded(Expanded(ProtectionPrefix(hosts, cidrs) + rules, providers), direct) + [Line(["MATCH", direct])]
  }

  /** The rewrite preserves meaning: a protected destination is rejected whatever the user's rules say, and any
      other destination goes where the user's list sent it, with DIRECT (also the implicit one at the end)
      replaced by the guarded outbound. Where rule sets have proper targets, the list reads plainly. */
  lemma {:induction false} RewriteKeepsMeaning(hosts: seq<Part>, cidrs: seq<Part>, rules: seq<Entry>, providers: map<string, Provider>,
                                               direct: Part, destination: iset<seq<Part>>)
    requires Inlinable(ProtectionPrefix(hosts, cidrs) + rules, providers)
    requires AllReadable(Expanded(ProtectionPrefix(hosts, cidrs) + rules, providers))
    ensures Verdict(Rewritten(hosts, cidrs, rules, providers, direct), destination) ==
              if IsProtected(hosts, cidrs, destination) then "REJECT"
              else Redirect(ReadVerdict(rules, providers, destination), direct)
    ensures (forall n :: 0 <= n < |rules| ==> ProperTarget(rules[n], providers)) ==>
              ReadVerdict(rules, providers, destination) == UserVerdict(rules, providers, destination)
  {
    var list := ProtectionPrefix(hosts, cidrs) + rules;
    InliningKeepsVerdicts(list, providers, destination);
    GuardingRedirectsVerdicts(Expanded(list, providers), direct, destination);
    ProtectedListReads(hosts, cidrs, rules, providers, destination);
    LaterRulesOk(ProtectionPrefix(hosts, cidrs), rules, providers);
    if forall n :: 0 <= n < |rules| ==> ProperTarget(rules[n], providers) {
      ProperTargetsReadPlainly(rules, providers, destination);
    }
  }

  lemma ProtectedListReads(hosts: seq<Part>, cidrs: seq<Part>, rules: seq<Entry>, providers: map<string, Provider>,
                           destination: iset<seq<Part>>)
    ensures ReadVerdict(ProtectionPrefix(hosts, cidrs) + rules, providers, destination) ==
              if IsProtected(hosts, cidrs, destination) then "REJECT" else ReadVerdict(rules, providers, destination)
  {
    PrefixVerdict(hosts, cidrs, destination);
    RejectPrefix(ProtectionPrefix(hosts, cidrs), rules, providers, destination);
  }

  lemma LaterRulesOk(prefix: seq<Entry>, rules: seq<Entry>, providers: map<string, Provider>)
    requires Inlinable(prefix + rules, providers)
    ensures forall n :: 0 <= n < |rules| ==> RuleOk(rules[n], providers)
  {
    assert forall n :: 0 <= n < |rules| ==> (prefix + rules)[|prefix| + n] == rules[n];
  }

  /** Guarding changes no shape, so checking the rewritten list for readability checks the list before it. */
  lemma ReadableBeforeGuarding(lines: seq<Entry>, direct: Part)
    requires AllReadable(Guarded(lines, direct)) && direct != "no-resolve" && direct != "MATCH"
    ensures AllReadable(lines)
  {
    forall i | 0 <= i < |lines| ensures lines[i].Line? && Readable(lines[i].parts) {
      var before, after := lines[i], Guarded(lines, direct)[i];
      assert after == GuardedLine(before, direct);
      var at := TargetAt(before.parts);
      if after != before {
        assert WithoutNoResolve(after.parts) == WithoutNoResolve(before.parts)[at := direct];
      }
    }
  }

  /** A rule set with the word no-resolve as target, over one entry that names a proxy. */
  function MisreadRule(): Entry { Line(["RULE-SET", "p", "no-resolve"]) }
  function MisreadEntry(proxy: Part): Entry { Line(["DOMAIN", "a.example", proxy]) }
  function MisreadProviders(proxy: Part): map<string, Provider> { map["p" := Provider("classical", Some([MisreadEntry(proxy)]))] }
  function MisreadLine(proxy: Part): Entry { Line(["DOMAIN", "a.example", proxy, "no-resolve"]) }

  lemma MisreadExpands(proxy: Part)
    ensures var rules := [MisreadRule()];
            && Inlinable(rules, MisreadProviders(proxy)) && Expanded(rules, MisreadProviders(proxy)) == [MisreadLine(proxy)]
            && AllReadable([MisreadLine(proxy)])
  {
    var rules, providers, payload := [MisreadRule()], MisreadProviders(proxy), [MisreadEntry(proxy)];
    assert payload[..0] == [];
    assert payload[0].parts + ["no-resolve"] == MisreadLine(proxy).parts;
    assert ProviderLines("classical", payload, "no-resolve") == [MisreadLine(proxy)];
    assert rules[..0] == [] && rules[..1] == rules;
    assert WithoutNoResolve(MisreadLine(proxy).parts) == payload[0].parts;
    assert RuleOk(rules[0], providers) by { assert ProviderOk(providers["p"]); }
    assert Expanded(rules[..1], providers) == [MisreadLine(proxy)];
    assert FitsAt(rules, providers, 0);
  }

  lemma MisreadVerdicts(proxy: Part, direct: Part, destination: iset<seq<Part>>)
    requires proxy !in ["no-resolve", "DIRECT"] && destination == iset{["DOMAIN", "a.example", "no-resolve"]}
    ensures Verdict(Guarded([MisreadLine(proxy)], direct) + [Line(["MATCH", direct])], destination) == proxy
    ensures !UserApplies(MisreadRule(), MisreadProviders(proxy), destination)
  {
    var line := MisreadLine(proxy);
    assert Condition(line.parts, 2) == ["DOMAIN", "a.example", "no-resolve"];
    assert Guarded([line], direct) == [line];
    var all := [line] + [Line(["MATCH", direct])];
    assert all[0] == line;
    var entry := MisreadEntry(proxy).parts;
    assert entry[2] != "no-resolve";
  }

  /** Why the plain reading needs proper targets: with the word no-resolve as RULE-SET target, an entry names its own
      target, and a destination that the user's list leaves to DIRECT is sent to a proxy. The destination is one that
      meets the first condition and not the second only because a modifier is part of a condition here. */
  lemma NoResolveTargetMisreads(proxy: Part, direct: Part)
    requires proxy !in ["no-resolve", "DIRECT", direct]
    ensures var rules, providers := [MisreadRule()], MisreadProviders(proxy);
            var destination := iset{["DOMAIN", "a.example", "no-resolve"]};
            && Inlinable(rules, providers) && AllReadable(Expanded(rules, providers))
            && Verdict(Rewritten([], [], rules, providers, direct), destination) == proxy
            && Redirect(UserVerdict(rules, providers, destination), direct) == direct
  {
    var rules := [MisreadRule()];
    var destination := iset{["DOMAIN", "a.example", "no-resolve"]};
    MisreadExpands(proxy);
    MisreadVerdicts(proxy, direct, destination);
    assert ProtectionPrefix([], []) + rules == rules;
    assert rules[1..] == [];
  }
}
