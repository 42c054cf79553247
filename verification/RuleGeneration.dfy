/**
 Automation rules: evaluating one rule's conditions against a target, and generating at most one
 suggestion per suggestion type from the rules in priority order.
 */
module RuleGeneration {
  import opened Wrappers

  datatype Value = Null | Text(text: string) | Number(number: real) | Many(values: seq<Value>)
  datatype Operator = Exists | Equals | Contains | In | GreaterThan | LessThan | Unsupported
  datatype Condition = Condition(field: string, operator: Operator, expected: Value)

  /** How the platform renders a value in lower case and how it reads a decimal, if it can. */
  datatype Platform = Platform(lowered: Value -> string, decimal: Value -> Option<real>)

  datatype Rule = Rule(
    id: nat, kind: nat, priority: int, createdAt: int, isActive: bool, archived: bool, deleted: bool,
    all: seq<Condition>, any: seq<Condition>, suggestionType: string)

  datatype Suggestion = Suggestion(rule: Rule)

  // ---------- One condition ----------

  predicate Falsy(v: Value) {
    v == Null || v == Text("") || v == Number(0.0) || v == Many([])
  }

  predicate Infix(part: string, whole: string) {
    exists i :: 0 <= i <= |whole| && part <= whole[i..]
  }

  function Decimals(p: Platform, actual: Value, expected: Value): Result<(real, real)> {
    var a := p.decimal(if Falsy(actual) then Number(0.0) else actual);
    var e := p.decimal(expected);
    if a.None? || e.None? then Err(BadCondition) else Ok((a.value, e.value))
  }

  function EvaluateCondition(p: Platform, target: map<string, Value>, c: Condition): Result<bool> {
    var actual := if c.field in target then target[c.field] else Null;
    match c.operator
    case Exists => Ok(actual != Null)
    case Equals => Ok(actual == c.expected)
    case Contains => Ok(Infix(p.lowered(c.expected), if actual == Null then "" else p.lowered(actual)))
    case In =>
      if Falsy(c.expected) then Ok(false)
      else if c.expected.Many? then Ok(actual in c.expected.values)
      else if c.expected.Text? && actual.Text? then Ok(Infix(actual.text, c.expected.text))
      else Err(BadCondition)
    case GreaterThan =>
      var d :- Decimals(p, actual, c.expected);
      Ok(d.0 > d.1)
    case LessThan =>
      var d :- Decimals(p, actual, c.expected);
      Ok(d.0 < d.1)
    case Unsupported => Ok(false)
  }

  predicate Holds(p: Platform, target: map<string, Value>, c: Condition) {
    EvaluateCondition(p, target, c) == Ok(true)
  }

  /** Every condition is evaluated for the explanation, so one that cannot be evaluated fails the whole request. */
  predicate Evaluable(p: Platform, target: map<string, Value>, rule: Rule) {
    && (forall c :: c in rule.all ==> EvaluateCondition(p, target, c).Ok?)
    && (forall c :: c in rule.any ==> EvaluateCondition(p, target, c).Ok?)
  }

  /** All "all" conditions hold and, if there are "any" conditions, one of them does. */
  predicate Matches(p: Platform, target: map<string, Value>, rule: Rule) {
    && (forall c :: c in rule.all ==> Holds(p, target, c))
    && (|rule.any| > 0 ==> exists c :: c in rule.any && Holds(p, target, c))
  }

  // ---------- What conditions mean ----------

  /** The target's entry for a field; a missing one reads as null. */
  function Entry(target: map<string, Value>, field: string): Value {
    if field in target then target[field] else Null
  }

  lemma ExistsMeaning(p: Platform, target: map<string, Value>, field: string, expected: Value)
    ensures Holds(p, target, Condition(field, Exists, expected)) <==> field in target && target[field] != Null
  {
  }

  lemma EqualsMeaning(p: Platform, target: map<string, Value>, field: string, expected: Value)
    ensures Holds(p, target, Condition(field, Equals, expected))
            <==> (field in target && target[field] == expected) || (field !in target && expected == Null)
  {
  }

  /** `part` occurs somewhere in `whole`. */
  predicate Occurs(part: string, whole: string) {
    exists i, j :: 0 <= i <= j <= |whole| && whole[i..j] == part
  }

  lemma InfixMeaning(part: string, whole: string)
    ensures Infix(part, whole) <==> Occurs(part, whole)
  {
    if i, j :| 0 <= i <= j <= |whole| && whole[i..j] == part {
      assert whole[i..][..j - i] == part;
    }
    if i :| 0 <= i <= |whole| && part <= whole[i..] {
      assert whole[i..i + |part|] == whole[i..][..|part|];
    }
  }

  /** The expected value's lower-case text occurs in the entry's; a missing or null entry reads as empty text. */
  lemma ContainsMeaning(p: Platform, target: map<string, Value>, field: string, expected: Value)
    ensures Holds(p, target, Condition(field, Contains, expected))
            <==> Occurs(p.lowered(expected), if Entry(target, field) == Null then "" else p.lowered(Entry(target, field)))
  {
    InfixMeaning(p.lowered(expected), if Entry(target, field) == Null then "" else p.lowered(Entry(target, field)));
  }

  /** The entry is one of the listed values, or its text occurs in a text; nothing is in an empty or missing value. */
  lemma InMeaning(p: Platform, target: map<string, Value>, field: string, expected: Value)
    ensures Holds(p, target, Condition(field, In, expected))
            <==> || (expected.Many? && exists k :: 0 <= k < |expected.values| && expected.values[k] == Entry(target, field))
                 || (expected.Text? && expected.text != "" && Entry(target, field).Text? && Occurs(Entry(target, field).text, expected.text))
  {
    var entry := Entry(target, field);
    match expected
    case Many(values) => ListedMeaning(entry, values);
    case Text(text) =>
      if entry.Text? {
        InfixMeaning(entry.text, text);
      }
    case _ =>
  }

  lemma ListedMeaning(v: Value, values: seq<Value>)
    ensures v in values <==> exists k :: 0 <= k < |values| && values[k] == v
  {
  }

  /** What a comparison reads: nothing, no text, zero and an empty list all read as zero. */
  function Compared(target: map<string, Value>, field: string): Value {
    var v := Entry(target, field);
    if v == Null || v == Text("") || v == Number(0.0) || v == Many([]) then Number(0.0) else v
  }

  /**
   Both sides must read as decimals; then a condition holds exactly when the entry is the greater, or
   the smaller, of the two, and never both.
   */
  lemma ComparisonMeaning(p: Platform, target: map<string, Value>, field: string, expected: Value)
    ensures var greater, less := Condition(field, GreaterThan, expected), Condition(field, LessThan, expected);
            var actual, bound := p.decimal(Compared(target, field)), p.decimal(expected);
            && (Holds(p, target, greater) <==> actual.Some? && bound.Some? && actual.value > bound.value)
            && (Holds(p, target, less) <==> actual.Some? && bound.Some? && actual.value < bound.value)
            && !(Holds(p, target, greater) && Holds(p, target, less))
            && (actual.Some? && bound.Some? && actual.value != bound.value ==> Holds(p, target, greater) || Holds(p, target, less))
  {
  }

  lemma UnsupportedMeaning(p: Platform, target: map<string, Value>, field: string, expected: Value)
    ensures !Holds(p, target, Condition(field, Unsupported, expected))
  {
  }

  /** A condition cannot be evaluated exactly when it compares what reads as no decimal, or looks into what is neither a list nor, for a text, a text. */
  lemma EvaluationFailsFor(p: Platform, target: map<string, Value>, c: Condition)
    ensures EvaluateCondition(p, target, c).Err?
            <==> || ((c.operator == GreaterThan || c.operator == LessThan)
                     && (p.decimal(Compared(target, c.field)).None? || p.decimal(c.expected).None?))
                 || (c.operator == In && c.expected.Number? && c.expected.number != 0.0)
                 || (c.operator == In && c.expected.Text? && c.expected.text != "" && !Entry(target, c.field).Text?)
  {
  }

  /** A rule matches when each of its "all" conditions holds and one of its "any" conditions, if it has any. */
  lemma MatchesMeaning(p: Platform, target: map<string, Value>, rule: Rule)
    ensures Matches(p, target, rule)
            <==> && (forall k :: 0 <= k < |rule.all| ==> Holds(p, target, rule.all[k]))
                 && (rule.any == [] || exists k :: 0 <= k < |rule.any| && Holds(p, target, rule.any[k]))
  {
  }

  // ---------- Generation ----------

  function Types(generated: seq<Suggestion>): set<string> {
    set s | s in generated :: s.rule.suggestionType
  }

  function Generate(p: Platform, target: map<string, Value>, rules: seq<Rule>): Result<seq<Suggestion>> {
    if |rules| == 0 then Ok([])
    else
      var earlier :- Generate(p, target, rules[..|rules| - 1]);
      var rule := rules[|rules| - 1];
      if !Evaluable(p, target, rule) then Err(BadCondition)
      else if !Matches(p, target, rule) || rule.suggestionType in Types(earlier) then Ok(earlier)
      else Ok(earlier + [Suggestion(rule)])
  }

  // ---------- The query ----------

  predicate Listed(rule: Rule, kind: nat) {
    !rule.deleted && rule.kind == kind && rule.isActive && !rule.archived
  }

  predicate Before(a: Rule, b: Rule) {
    a.priority < b.priority || (a.priority == b.priority && a.createdAt < b.createdAt)
  }

  /** What list_rules returns: the listed rules of the table, each once, by priority and then creation time. */
  ghost predicate QueryResult(table: set<Rule>, kind: nat, rules: seq<Rule>) {
    && (forall r :: r in rules <==> r in table && Listed(r, kind))
    && (forall i, j :: 0 <= i < j < |rules| ==> !Before(rules[j], rules[i]))
  }

  // ---------- What generation yields ----------

  predicate TypesDistinct(generated: seq<Suggestion>) {
    forall i, j :: 0 <= i < j < |generated| ==> generated[i].rule.suggestionType != generated[j].rule.suggestionType
  }

  /** Position k holds the first matching rule of its suggestion type. */
  predicate FirstMatch(p: Platform, target: map<string, Value>, rules: seq<Rule>, k: nat)
    requires k < |rules|
  {
    Matches(p, target, rules[k])
    && forall i :: 0 <= i < k && Matches(p, target, rules[i]) ==> rules[i].suggestionType != rules[k].suggestionType
  }

  predicate CameFromFirst(p: Platform, target: map<string, Value>, rules: seq<Rule>, s: Suggestion) {
    exists k :: 0 <= k < |rules| && rules[k] == s.rule && FirstMatch(p, target, rules, k)
  }

  lemma TypesAppend(generated: seq<Suggestion>, s: Suggestion)
    ensures Types(generated + [s]) == Types(generated) + {s.rule.suggestionType}
  {
    assert forall x :: x in generated + [s] <==> x in generated || x == s;
    assert s in generated + [s];
    forall t | t in Types(generated)
      ensures t in Types(generated + [s])
    {
      var x :| x in generated && x.rule.suggestionType == t;
      assert x in generated + [s];
    }
  }

  predicate TypeMatched(p: Platform, target: map<string, Value>, rules: seq<Rule>, t: string) {
    exists k :: 0 <= k < |rules| && Matches(p, target, rules[k]) && rules[k].suggestionType == t
  }

  lemma TypeMatchedLast(p: Platform, target: map<string, Value>, rules: seq<Rule>, t: string)
    requires |rules| > 0
    ensures var last := rules[|rules| - 1];
            TypeMatched(p, target, rules, t)
            <==> TypeMatched(p, target, rules[..|rules| - 1], t) || (Matches(p, target, last) && last.suggestionType == t)
  {
    var init := rules[..|rules| - 1];
    if k :| 0 <= k < |init| && Matches(p, target, init[k]) && init[k].suggestionType == t {
      assert rules[k] == init[k];
    }
    if k :| 0 <= k < |rules| - 1 && Matches(p, target, rules[k]) && rules[k].suggestionType == t {
      assert init[k] == rules[k];
    }
  }

  /** A suggestion type is generated exactly when some rule of that type matches, and never twice. */
  lemma {:induction false} GeneratedTypes(p: Platform, target: map<string, Value>, rules: seq<Rule>, t: string)
    requires Generate(p, target, rules).Ok?
    ensures TypesDistinct(Generate(p, target, rules).value)
    ensures t in Types(Generate(p, target, rules).value) <==> TypeMatched(p, target, rules, t)
  {
    if |rules| > 0 {
      var init, rule := rules[..|rules| - 1], rules[|rules| - 1];
      var earlier := Generate(p, target, init).value;
      GeneratedTypes(p, target, init, t);
      TypeMatchedLast(p, target, rules, t);
      TypesAppend(earlier, Suggestion(rule));
      if rule.suggestionType !in Types(earlier) {
        NewTypeIsDistinct(earlier, rule);
      }
    }
  }

  lemma CameFromFirstStays(p: Platform, target: map<string, Value>, rules: seq<Rule>, s: Suggestion)
    requires |rules| > 0 && CameFromFirst(p, target, rules[..|rules| - 1], s)
    ensures CameFromFirst(p, target, rules, s)
  {
    var init := rules[..|rules| - 1];
    var k :| 0 <= k < |init| && init[k] == s.rule && FirstMatch(p, target, init, k);
    forall i | 0 <= i < k && Matches(p, target, rules[i])
      ensures rules[i].suggestionType != rules[k].suggestionType
    {
      assert init[i] == rules[i];
    }
    assert FirstMatch(p, target, rules, k);
  }

  /** Every suggestion comes from the first matching rule of its type. */
  lemma {:induction false} GeneratedFromFirst(p: Platform, target: map<string, Value>, rules: seq<Rule>, s: Suggestion)
    requires Generate(p, target, rules).Ok? && s in Generate(p, target, rules).value
    ensures CameFromFirst(p, target, rules, s)
  {
    var n := |rules| - 1;
    var init, rule := rules[..n], rules[n];
    if s in Generate(p, target, init).value {
      GeneratedFromFirst(p, target, init, s);
      CameFromFirstStays(p, target, rules, s);
    } else {
      GeneratedTypes(p, target, init, rule.suggestionType);
      forall i | 0 <= i < n && Matches(p, target, rules[i])
        ensures rules[i].suggestionType != rule.suggestionType
      {
        assert init[i] == rules[i];
      }
      assert FirstMatch(p, target, rules, n);
    }
  }

  lemma NewTypeIsDistinct(earlier: seq<Suggestion>, rule: Rule)
    requires TypesDistinct(earlier) && rule.suggestionType !in Types(earlier)
    ensures TypesDistinct(earlier + [Suggestion(rule)])
  {
    forall i | 0 <= i < |earlier|
      ensures earlier[i].rule.suggestionType != rule.suggestionType
    {
      assert earlier[i] in earlier;
    }
  }

  /** A rule of the kind that is in use and matches with the suggestion type. */
  predicate Eligible(p: Platform, target: map<string, Value>, kind: nat, t: string, r: Rule) {
    !r.deleted && !r.archived && r.isActive && r.kind == kind && r.suggestionType == t && Matches(p, target, r)
  }

  lemma SuggestionIsEligible(p: Platform, target: map<string, Value>, table: set<Rule>, kind: nat, rules: seq<Rule>, s: Suggestion)
    requires QueryResult(table, kind, rules) && Generate(p, target, rules).Ok? && s in Generate(p, target, rules).value
    ensures s.rule in table && Eligible(p, target, kind, s.rule.suggestionType, s.rule)
  {
    GeneratedFromFirst(p, target, rules, s);
    var k :| 0 <= k < |rules| && rules[k] == s.rule && FirstMatch(p, target, rules, k);
    assert rules[k] in rules;
  }

  lemma EligibleIsMatched(p: Platform, target: map<string, Value>, table: set<Rule>, kind: nat, rules: seq<Rule>, r: Rule)
    requires QueryResult(table, kind, rules) && r in table && Eligible(p, target, kind, r.suggestionType, r)
    ensures TypeMatched(p, target, rules, r.suggestionType)
  {
    assert r in rules;
    var k :| 0 <= k < |rules| && rules[k] == r;
  }

  lemma NoneBeforeSuggestion(p: Platform, target: map<string, Value>, table: set<Rule>, kind: nat, rules: seq<Rule>, s: Suggestion, r: Rule)
    requires QueryResult(table, kind, rules) && Generate(p, target, rules).Ok? && s in Generate(p, target, rules).value
    requires r in table && Eligible(p, target, kind, s.rule.suggestionType, r)
    ensures s.rule.priority < r.priority || (s.rule.priority == r.priority && s.rule.createdAt <= r.createdAt)
  {
    GeneratedFromFirst(p, target, rules, s);
    var k :| 0 <= k < |rules| && rules[k] == s.rule && FirstMatch(p, target, rules, k);
    assert r in rules;
    var i :| 0 <= i < |rules| && rules[i] == r;
    assert i >= k;
  }

  /**
   For each suggestion type there is a suggestion exactly when some active rule of the table
   matches with that type, there is never a second one, and its rule is a matching one that no
   other matching rule of that type precedes in priority and creation order.
   */
  lemma OneSuggestionPerType(p: Platform, target: map<string, Value>, table: set<Rule>, kind: nat, rules: seq<Rule>, t: string)
    requires QueryResult(table, kind, rules) && Generate(p, target, rules).Ok?
    ensures var generated := Generate(p, target, rules).value;
            && TypesDistinct(generated)
            && ((exists s :: s in generated && s.rule.suggestionType == t)
                <==> exists r :: r in table && Eligible(p, target, kind, t, r))
            && (forall s :: s in generated && s.rule.suggestionType == t ==>
                  && s.rule in table && Eligible(p, target, kind, t, s.rule)
                  && (forall r :: r in table && Eligible(p, target, kind, t, r) ==>
                        s.rule.priority < r.priority || (s.rule.priority == r.priority && s.rule.createdAt <= r.createdAt)))
  {
    var generated := Generate(p, target, rules).value;
    GeneratedTypes(p, target, rules, t);
    if s :| s in generated && s.rule.suggestionType == t {
      SuggestionIsEligible(p, target, table, kind, rules, s);
    }
    if r :| r in table && Eligible(p, target, kind, t, r) {
      EligibleIsMatched(p, target, table, kind, rules, r);
    }
    forall s | s in generated && s.rule.suggestionType == t
      ensures s.rule in table && Eligible(p, target, kind, t, s.rule)
      ensures forall r :: r in table && Eligible(p, target, kind, t, r) ==>
                            s.rule.priority < r.priority || (s.rule.priority == r.priority && s.rule.createdAt <= r.createdAt)
    {
      SuggestionIsEligible(p, target, table, kind, rules, s);
      forall r | r in table && Eligible(p, target, kind, t, r)
        ensures s.rule.priority < r.priority || (s.rule.priority == r.priority && s.rule.createdAt <= r.createdAt)
      {
        NoneBeforeSuggestion(p, target, table, kind, rules, s, r);
      }
    }
  }

  /** Generation is refused exactly when some listed rule has a condition that cannot be evaluated. */
  lemma {:induction false} GenerationRefusedOnlyFor(p: Platform, target: map<string, Value>, rules: seq<Rule>)
    ensures Generate(p, target, rules).Ok? <==> forall r :: r in rules ==> Evaluable(p, target, r)
  {
    if |rules| > 0 {
      var init, rule := rules[..|rules| - 1], rules[|rules| - 1];
      GenerationRefusedOnlyFor(p, target, init);
      assert rules == init + [rule];
      assert forall r :: r in rules <==> r in init || r == rule;
    }
  }

  // ---------- The loop ----------

  method RunRuleGeneration(p: Platform, target: map<string, Value>, rules: seq<Rule>) returns (r: Result<seq<Suggestion>>)
    ensures r == Generate(p, target, rules)
  {
    var generated: seq<Suggestion> := [];
    var used: set<string> := {};
    for k := 0 to |rules|
      invariant Generate(p, target, rules[..k]) == Ok(generated)
      invariant used == Types(generated)
    {
      assert rules[..k + 1][..k] == rules[..k];
      var rule := rules[k];
      if !Evaluable(p, target, rule) {
        GenerationRefusedOnlyFor(p, target, rules);
        RefusalKind(p, target, rules);
        return Err(BadCondition);
      }
      if Matches(p, target, rule) && rule.suggestionType !in used {
        TypesAppend(generated, Suggestion(rule));
        used := used + {rule.suggestionType};
        generated := generated + [Suggestion(rule)];
      }
    }
    assert rules[..|rules|] == rules;
    return Ok(generated);
  }

  lemma {:induction false} RefusalKind(p: Platform, target: map<string, Value>, rules: seq<Rule>)
    ensures Generate(p, target, rules).Err? ==> Generate(p, target, rules).error == BadCondition
  {
    if |rules| > 0 {
      RefusalKind(p, target, rules[..|rules| - 1]);
    }
  }
}
