/**
 * The field extractor of modules/extractor.py: a regex pass over every lender's
 * patterns, the "is a fallback needed" test, the (stubbed) LLM pass, and the merge
 * in which regex values win.
 *
 * The regex engine and the LLM are not modelled: `re.search` is the parameter
 * `search`, the LLM call is the parameter `llm`.
 */
module Extraction {
  import opened Wrappers
  import opened PyDict

  type Pattern = string

  /**
   * What a successful `re.search` yields, as far as the extractor reads it: the
   * group named `value` when the pattern has one, otherwise group 1. A group that
   * did not take part in the match reads as `None`.
   */
  datatype Match = NamedValue(value: Option<string>) | FirstGroup(group1: Option<string>)

  /** `re.search(pattern, text)`: `None` when nothing matches. */
  type Search = (Pattern, string) -> Option<Match>

  /** One entry of a lender's `regex_patterns`: a field name and its pattern. */
  datatype Rule = Rule(field: string, pattern: Pattern)

  /** A configured lender; `patterns` is `regex_patterns.items()` in order (empty when absent). */
  datatype Lender = Lender(name: string, patterns: seq<Rule>)

  /** The group the extractor reads: `value` when the pattern names it, else group 1. */
  function Group(m: Match): Option<string> {
    match m
    case NamedValue(v) => v
    case FirstGroup(g) => g
  }

  /**
   * `match.group('value')`, falling back to `match.group(1)`: the group's text, or
   * `None` when the group took no part in the match. Either an empty capture or a
   * missing group leaves a falsy value.
   */
  function Capture(m: Match): (v: Value)
    ensures v == Null <==> Group(m).None?
    ensures v != Null ==> v == Str(Group(m).value)
    ensures Truthy(v) <==> Group(m).Some? && Group(m).value != ""
  {
    match m
    case NamedValue(v) => if v.Some? then Str(v.value) else Null
    case FirstGroup(g) => if g.Some? then Str(g.value) else Null
  }

  /** Every rule of every lender, lenders in order and each lender's rules in order. */
  function Rules(lenders: seq<Lender>): seq<Rule>
  {
    if lenders == [] then [] else lenders[0].patterns + Rules(lenders[1..])
  }

  /** The mandatory-field universe: every field named by some lender's patterns. */
  function Mandatory(lenders: seq<Lender>): set<string>
  {
    set l, r | l in lenders && r in l.patterns :: r.field
  }

  /** The rule's pattern matches the text. */
  predicate Matches(rule: Rule, search: Search, text: string) {
    search(rule.pattern, text).Some?
  }

  /** One iteration of the inner loop: `results[field] = capture` when the pattern matches. */
  function Step(results: Record, rule: Rule, search: Search, text: string): Record
  {
    match search(rule.pattern, text)
    case None => results
    case Some(m) => Put(results, rule.field, Capture(m))
  }

  /** Applies the rules in order, starting from `results`. */
  function ApplyRules(results: Record, rules: seq<Rule>, search: Search, text: string): (r: Record)
    ensures results.Valid() ==> r.Valid()
    decreases |rules|
  {
    if rules == [] then results
    else ApplyRules(Step(results, rules[0], search, text), rules[1..], search, text)
  }

  /** What `extract_with_regex` computes. */
  function RegexPass(lenders: seq<Lender>, search: Search, text: string): Record
  {
    ApplyRules(Empty(), Rules(lenders), search, text)
  }

  /**
   * Reference definition of "last matching rule wins": scanning from the end, the
   * capture of the last rule for `f` whose pattern matches, if any.
   */
  function LastCapture(rules: seq<Rule>, f: string, search: Search, text: string): Option<Value>
  {
    if rules == [] then None
    else
      var later := LastCapture(rules[1..], f, search, text);
      if later.Some? then later
      else if rules[0].field == f && Matches(rules[0], search, text) then
        Some(Capture(search(rules[0].pattern, text).value))
      else None
  }

  /** Applying rules in order overwrites `f` exactly with its last matching capture. */
  lemma {:induction false} ApplyRulesField(results: Record, rules: seq<Rule>, search: Search, text: string, f: string)
    ensures Get(ApplyRules(results, rules, search, text), f)
         == if LastCapture(rules, f, search, text).Some? then LastCapture(rules, f, search, text) else Get(results, f)
    decreases |rules|
  {
    if rules != [] {
      ApplyRulesField(Step(results, rules[0], search, text), rules[1..], search, text, f);
    }
  }

  /** `LastCapture` finds the highest-indexed matching rule for `f`. */
  lemma {:induction false} LastCaptureAt(rules: seq<Rule>, f: string, search: Search, text: string, i: nat)
    requires i < |rules| && rules[i].field == f && Matches(rules[i], search, text)
    requires forall j :: i < j < |rules| ==> !(rules[j].field == f && Matches(rules[j], search, text))
    ensures LastCapture(rules, f, search, text) == Some(Capture(search(rules[i].pattern, text).value))
  {
    if i == 0 {
      LastCaptureNone(rules[1..], f, search, text);
    } else {
      LastCaptureAt(rules[1..], f, search, text, i - 1);
    }
  }

  /** With no matching rule for `f`, there is no capture. */
  lemma {:induction false} LastCaptureNone(rules: seq<Rule>, f: string, search: Search, text: string)
    requires forall j :: 0 <= j < |rules| ==> !(rules[j].field == f && Matches(rules[j], search, text))
    ensures LastCapture(rules, f, search, text) == None
  {
    if rules != [] {
      LastCaptureNone(rules[1..], f, search, text);
    }
  }

  lemma {:induction false} RulesMembers(lenders: seq<Lender>, r: Rule)
    ensures r in Rules(lenders) <==> exists l :: l in lenders && r in l.patterns
  {
    if lenders != [] {
      RulesMembers(lenders[1..], r);
      assert forall l :: l in lenders <==> l == lenders[0] || l in lenders[1..];
    }
  }

  /**
   * The regex pass: a field is in the result exactly when some rule for it matched,
   * and then its value is the capture of the last matching rule (lender order,
   * then pattern order); every result field is mandatory.
   */
  lemma RegexPassField(lenders: seq<Lender>, search: Search, text: string, f: string)
    ensures RegexPass(lenders, search, text).Valid()
    ensures f in RegexPass(lenders, search, text).items
        <==> exists r :: r in Rules(lenders) && r.field == f && Matches(r, search, text)
    ensures f in RegexPass(lenders, search, text).items ==> f in Mandatory(lenders)
  {
    var rules := Rules(lenders);
    ApplyRulesField(Empty(), rules, search, text, f);
    if exists r :: r in rules && r.field == f && Matches(r, search, text) {
      var r :| r in rules && r.field == f && Matches(r, search, text);
      RulesMembers(lenders, r);
      var i :| 0 <= i < |rules| && rules[i] == r;
      LastIndex(rules, f, search, text, i);
    } else {
      LastCaptureNone(rules, f, search, text);
    }
  }

  /** Some matching rule for `f` has a last one after it. */
  lemma {:induction false} LastIndex(rules: seq<Rule>, f: string, search: Search, text: string, i: nat)
    requires i < |rules| && rules[i].field == f && Matches(rules[i], search, text)
    ensures LastCapture(rules, f, search, text).Some?
    decreases |rules| - i
  {
    if exists j :: i < j < |rules| && rules[j].field == f && Matches(rules[j], search, text) {
      var j :| i < j < |rules| && rules[j].field == f && Matches(rules[j], search, text);
      LastIndex(rules, f, search, text, j);
    } else {
      LastCaptureAt(rules, f, search, text, i);
    }
  }

  /**
   * When several rules name the same field, the value comes from the last rule (in
   * lender order, then pattern order) whose pattern matched.
   */
  lemma LastMatchingRuleWins(lenders: seq<Lender>, search: Search, text: string, i: nat)
    requires i < |Rules(lenders)| && Matches(Rules(lenders)[i], search, text)
    requires forall j :: i < j < |Rules(lenders)| ==>
      !(Rules(lenders)[j].field == Rules(lenders)[i].field && Matches(Rules(lenders)[j], search, text))
    ensures Get(RegexPass(lenders, search, text), Rules(lenders)[i].field)
         == Some(Capture(search(Rules(lenders)[i].pattern, text).value))
  {
    var rules := Rules(lenders);
    var f := rules[i].field;
    LastCaptureAt(rules, f, search, text, i);
    ApplyRulesField(Empty(), rules, search, text, f);
  }

  /** The fields of the rules whose patterns match, in rule order, repeats included. */
  function MatchedFields(rules: seq<Rule>, search: Search, text: string): seq<string>
  {
    if rules == [] then []
    else if Matches(rules[0], search, text) then [rules[0].field] + MatchedFields(rules[1..], search, text)
    else MatchedFields(rules[1..], search, text)
  }

  /** The first occurrence of each name in `names` that is not in `seen`, in order. */
  function FirstOccurrences(names: seq<string>, seen: set<string>): seq<string>
  {
    if names == [] then []
    else if names[0] in seen then FirstOccurrences(names[1..], seen)
    else [names[0]] + FirstOccurrences(names[1..], seen + {names[0]})
  }

  /** Applying rules appends each newly matched field once, where it first matched. */
  lemma {:induction false} ApplyRulesKeys(results: Record, rules: seq<Rule>, search: Search, text: string)
    ensures ApplyRules(results, rules, search, text).keys
         == results.keys + FirstOccurrences(MatchedFields(rules, search, text), results.items.Keys)
    decreases |rules|
  {
    if rules != [] {
      var next := Step(results, rules[0], search, text);
      var rest := MatchedFields(rules[1..], search, text);
      ApplyRulesKeys(next, rules[1..], search, text);
      if Matches(rules[0], search, text) {
        var k := rules[0].field;
        PutKeys(results, k, Capture(search(rules[0].pattern, text).value));
        if k !in results.items {
          assert next.keys + FirstOccurrences(rest, next.items.Keys)
              == results.keys + ([k] + FirstOccurrences(rest, results.items.Keys + {k}));
        } else {
          assert next.items.Keys == results.items.Keys;
        }
      }
    }
  }

  /**
   * The regex result's key order: each matched field sits where its first matching
   * rule (lender order, then pattern order) put it; later matches only overwrite it.
   */
  lemma RegexPassKeyOrder(lenders: seq<Lender>, search: Search, text: string)
    ensures RegexPass(lenders, search, text).keys
         == FirstOccurrences(MatchedFields(Rules(lenders), search, text), {})
  {
    ApplyRulesKeys(Empty(), Rules(lenders), search, text);
  }

  /** `extract_with_regex`: nested loops over lenders and their patterns. */
  method ExtractWithRegex(lenders: seq<Lender>, search: Search, text: string) returns (results: Record)
    ensures results == RegexPass(lenders, search, text)
  {
    results := Empty();
    for i := 0 to |lenders|
      invariant ApplyRules(results, Rules(lenders[i..]), search, text) == RegexPass(lenders, search, text)
    {
      var patterns := lenders[i].patterns;
      assert Rules(lenders[i..]) == patterns + Rules(lenders[i + 1..]) by {
        assert lenders[i..][1..] == lenders[i + 1..];
      }
      for j := 0 to |patterns|
        invariant ApplyRules(results, patterns[j..] + Rules(lenders[i + 1..]), search, text)
               == RegexPass(lenders, search, text)
      {
        assert (patterns[j..] + Rules(lenders[i + 1..]))[1..] == patterns[j + 1..] + Rules(lenders[i + 1..]);
        var rule := patterns[j];
        var m := search(rule.pattern, text);
        if m.Some? {
          results := Put(results, rule.field, Capture(m.value));
        }
      }
      assert patterns[|patterns|..] + Rules(lenders[i + 1..]) == Rules(lenders[i + 1..]);
    }
    assert lenders[|lenders|..] == [];
  }

  /** A mandatory field is missing, or present with a falsy value (`not regex_res.get(field)`). */
  predicate NeedsFallback(lenders: seq<Lender>, results: Record) {
    exists f :: f in Mandatory(lenders) && !Truthy(Field(results, f))
  }

  /** With no lenders there are no mandatory fields, so the fallback is never needed. */
  lemma NoLendersNoFallback(results: Record)
    ensures !NeedsFallback([], results)
  {
  }

  /** `_needs_llm`: collects the mandatory fields, then looks for one that is missing or empty. */
  method NeedsLlm(lenders: seq<Lender>, regexRes: Record) returns (needs: bool)
    ensures needs <==> exists f :: f in Mandatory(lenders) && !Truthy(Field(regexRes, f))
  {
    var fields: set<string> := {};
    for i := 0 to |lenders|
      invariant fields == Mandatory(lenders[..i])
    {
      assert lenders[..i + 1] == lenders[..i] + [lenders[i]];
      fields := fields + set r | r in lenders[i].patterns :: r.field;
    }
    assert lenders[..|lenders|] == lenders;
    var rest := fields;
    while rest != {}
      invariant rest <= fields
      invariant forall f :: f in fields - rest ==> Truthy(Field(regexRes, f))
      decreases rest
    {
      var f :| f in rest;
      if !Truthy(Field(regexRes, f)) {
        return true;
      }
      rest := rest - {f};
    }
    return false;
  }

  /** The LLM pass: given the text, a dict from field names to values. */
  type Llm = f: string -> Record | forall t :: f(t).Valid() witness ExtractWithLlm

  /** The shipped `extract_with_llm`, a stub that yields no fields. */
  function ExtractWithLlm(text: string): (r: Record)
    ensures r.items == map[] && r.Valid()
  {
    Empty()
  }

  /**
   * `merge_results`: a copy of the LLM result updated with the regex result. Every
   * regex field keeps its regex value, even an empty one; fields only the LLM found
   * keep the LLM's value; the LLM's fields come first in the key order.
   */
  function Merge(regexRes: Record, llmRes: Record): (merged: Record)
    requires regexRes.Valid()
    ensures merged.items.Keys == regexRes.items.Keys + llmRes.items.Keys
    ensures forall f :: f in regexRes.items ==> merged.items[f] == regexRes.items[f]
    ensures forall f :: f in llmRes.items && f !in regexRes.items ==> merged.items[f] == llmRes.items[f]
    ensures merged.keys == llmRes.keys + NewKeys(regexRes.keys, llmRes.items.Keys)
    ensures llmRes.Valid() ==> merged.Valid()
  {
    Update(llmRes, regexRes)
  }

  /**
   * What `extract` returns: the regex result, completed from the LLM result only
   * when a mandatory field is missing or empty. The regex value of a field always
   * wins; when no fallback is needed the result is exactly the regex result.
   */
  function Extracted(lenders: seq<Lender>, search: Search, llm: Llm, text: string): (record: Record)
    ensures record.Valid()
    ensures var regex := RegexPass(lenders, search, text);
      && (forall f :: f in regex.items ==> f in record.items && record.items[f] == regex.items[f])
      && (NeedsFallback(lenders, regex) ==>
            record.items.Keys == regex.items.Keys + llm(text).items.Keys
            && forall f :: f in llm(text).items && f !in regex.items ==> record.items[f] == llm(text).items[f])
      && (!NeedsFallback(lenders, regex) ==> record == regex)
  {
    var regex := RegexPass(lenders, search, text);
    if NeedsFallback(lenders, regex) then
      Merge(regex, llm(text))
    else
      UpdateEmpty(regex);
      Merge(regex, Empty())
  }

  /** `extract`: regex pass, fallback test, optional LLM pass, merge. */
  method Extract(lenders: seq<Lender>, search: Search, llm: Llm, text: string) returns (record: Record)
    ensures record == Extracted(lenders, search, llm, text)
  {
    var regexRes := ExtractWithRegex(lenders, search, text);
    var needs := NeedsLlm(lenders, regexRes);
    var llmRes := if needs then llm(text) else Empty();
    record := Merge(regexRes, llmRes);
  }

  /**
   * With the shipped stub LLM, `extract` is the regex pass, and so every field of a
   * record is a mandatory field: no `needs_review` key appears unless a lender
   * configures a pattern under that name.
   */
  lemma StubExtractIsRegexPass(lenders: seq<Lender>, search: Search, text: string, f: string)
    ensures Extracted(lenders, search, ExtractWithLlm, text) == RegexPass(lenders, search, text)
    ensures f in Extracted(lenders, search, ExtractWithLlm, text).items ==> f in Mandatory(lenders)
  {
    var regex := RegexPass(lenders, search, text);
    RegexPassField(lenders, search, text, f);
    UpdateEmpty(regex);
  }
}
