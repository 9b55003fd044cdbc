/**
 * The blocked-crawler extractor of Code/blocked.py: one pass over the lines
 * of a robots.txt snapshot that tracks the most recent `user-agent:` value
 * and collects every agent that has a `disallow:` line in its scope.
 *
 * The pass is specified by a fold, `ScanFrom`, over a state with the same two
 * parts as the Python loop (`current_agent` and the set `blocked`); the
 * method `ExtractAllBlockedCrawlers` is proved to compute it, and the lemmas
 * characterise its result without reference to the fold.
 */
module Blocked {
  import opened Wrappers
  import opened Text

  /** The loop state: the agent in scope (Python `None` or a string) and the set so far. */
  datatype ScanState = ScanState(current: Option<string>, blocked: set<string>)

  const Initial := ScanState(None, {})

  /** Each line is stripped and then lowercased before it is looked at. */
  function Normalize(line: string): string {
    Lower(Strip(line))
  }

  predicate IsAgentRule(n: string) {
    StartsWith(n, "user-agent:")
  }

  predicate IsDisallowRule(n: string) {
    StartsWith(n, "disallow:")
  }

  /** The agent named by a normalized `user-agent:` line: the stripped text after its first colon. */
  function AgentName(n: string): string
    requires IsAgentRule(n)
  {
    assert n[10] == "user-agent:"[10];
    Strip(AfterFirstColon(n))
  }

  /** Python truthiness of `current_agent`: neither `None` nor the empty string. */
  predicate Truthy(current: Option<string>) {
    current.Some? && current.value != ""
  }

  /** What a line is to the loop: the `if` / `elif` chain of the Python body. */
  datatype Rule = AgentLine(name: string) | DisallowLine | OtherLine

  function Classify(line: string): Rule {
    var n := Normalize(line);
    if IsAgentRule(n) then AgentLine(AgentName(n))
    else if IsDisallowRule(n) then DisallowLine
    else OtherLine
  }

  /** The lines of a snapshot as the loop reads them. */
  function Rules(lines: seq<string>): (rules: seq<Rule>)
    ensures |rules| == |lines|
    ensures forall k :: 0 <= k < |lines| ==> rules[k] == Classify(lines[k])
  {
    seq(|lines|, k requires 0 <= k < |lines| => Classify(lines[k]))
  }

  /** One iteration of the loop body. */
  function Step(st: ScanState, rule: Rule): ScanState {
    match rule
    case AgentLine(a) => ScanState(Some(a), st.blocked)
    case DisallowLine => if Truthy(st.current) then ScanState(st.current, st.blocked + {st.current.value}) else st
    case OtherLine => st
  }

  /** The loop run over `rules` from state `st`. */
  function ScanFrom(st: ScanState, rules: seq<Rule>): ScanState {
    if rules == [] then st else Step(ScanFrom(st, rules[..|rules| - 1]), rules[|rules| - 1])
  }

  /** Running the loop over one more rule applies one more step. */
  lemma ScanFromPrefixNext(st: ScanState, rules: seq<Rule>, i: int)
    requires 0 <= i < |rules|
    ensures ScanFrom(st, rules[..i + 1]) == Step(ScanFrom(st, rules[..i]), rules[i])
  {
    assert rules[..i + 1][..i] == rules[..i];
  }

  /** The loop run over the lines of a snapshot. */
  function Scan(lines: seq<string>): ScanState {
    ScanFrom(Initial, Rules(lines))
  }

  /** The set of blocked agents of a snapshot; an absent one (`NaN`) blocks nothing. */
  function Blocked(robotsTxt: Option<string>): set<string> {
    match robotsTxt
    case None => {}
    case Some(text) => Scan(SplitLines(text)).blocked
  }

  /** `order` lists each member of `s` exactly once. */
  predicate Enumerates(order: seq<string>, s: set<string>) {
    multiset(order) == multiset(s)
  }

  /** An enumeration of a set names no member twice. */
  lemma EnumerationDistinct(order: seq<string>, s: set<string>)
    requires Enumerates(order, s)
    ensures forall i, j :: 0 <= i < j < |order| ==> order[i] != order[j]
  {
    forall i, j | 0 <= i < j < |order| ensures order[i] != order[j] {
      var x := order[j];
      assert order == order[..j] + [x] + order[j + 1..];
      assert multiset(order)[x] == multiset(order[..j])[x] + 1 + multiset(order[j + 1..])[x];
      assert x in s;
      assert multiset(order[..j])[x] == 0;
      assert order[..j][i] == order[i];
    }
  }

  /** Iterating over a Python set: some order in which every member comes once. */
  method EnumerateSet(s: set<string>) returns (order: seq<string>)
    ensures Enumerates(order, s)
  {
    order := [];
    var rest := s;
    while rest != {}
      invariant rest <= s
      invariant multiset(order) + multiset(rest) == multiset(s)
      decreases |rest|
    {
      var x :| x in rest;
      assert multiset(rest) == multiset(rest - {x}) + multiset{x};
      order := order + [x];
      rest := rest - {x};
    }
  }

  /** `", ".join(blocked) if blocked else ""` for a set of non-empty names. */
  method JoinBlocked(blocked: set<string>) returns (r: string)
    requires forall a :: a in blocked ==> a != ""
    ensures r == "" <==> blocked == {}
    ensures exists order :: Enumerates(order, blocked) && r == Join(order, ", ")
  {
    if blocked == {} {
      assert Enumerates([], blocked);
      r := "";
    } else {
      var order := EnumerateSet(blocked);
      assert order[0] in multiset(blocked);
      JoinNonEmpty(order, ", ");
      r := Join(order, ", ");
    }
  }

  /**
   * `extract_all_blocked_crawlers`: an absent snapshot gives "", otherwise
   * the blocked agents joined by ", " in set-iteration order, or "" when
   * there are none.
   */
  method ExtractAllBlockedCrawlers(robotsTxt: Option<string>) returns (r: string)
    ensures r == "" <==> Blocked(robotsTxt) == {}
    ensures exists order :: Enumerates(order, Blocked(robotsTxt)) && r == Join(order, ", ")
  {
    if robotsTxt.None? {
      assert Enumerates([], {});
      return "";
    }
    var lines := SplitLines(robotsTxt.value);
    var current: Option<string> := None;
    var blocked: set<string> := {};
    for i := 0 to |lines|
      invariant ScanState(current, blocked) == ScanFrom(Initial, Rules(lines)[..i])
    {
      ScanFromPrefixNext(Initial, Rules(lines), i);
      var line := Normalize(lines[i]);
      if StartsWith(line, "user-agent:") {
        current := Some(AgentName(line));
      } else if StartsWith(line, "disallow:") && current.Some? && current.value != "" {
        blocked := blocked + {current.value};
      }
    }
    assert Rules(lines)[..|lines|] == Rules(lines);
    BlockedNamesNormalized(lines);
    r := JoinBlocked(blocked);
  }

  /** No normalized line is both a `user-agent:` and a `disallow:` line, so the `elif` never hides a rule. */
  lemma AgentRuleIsNotDisallow(n: string)
    ensures !(IsAgentRule(n) && IsDisallowRule(n))
  {
    if IsAgentRule(n) {
      assert n[0] == "user-agent:"[0];
    }
  }

  /** A line is read as a `disallow:` rule exactly when its normalized form starts with `disallow:`. */
  lemma ClassifyDisallow(line: string)
    ensures Classify(line) == DisallowLine <==> IsDisallowRule(Normalize(line))
  {
    AgentRuleIsNotDisallow(Normalize(line));
  }

  /** Running the loop over `p + q` is running it over `p`, then over `q`. */
  lemma {:induction false} ScanAppend(st: ScanState, p: seq<Rule>, q: seq<Rule>)
    ensures ScanFrom(st, p + q) == ScanFrom(ScanFrom(st, p), q)
    decreases |q|
  {
    if q == [] {
      assert p + q == p;
    } else {
      assert (p + q)[..|p + q| - 1] == p + q[..|q| - 1];
      ScanAppend(st, p, q[..|q| - 1]);
    }
  }

  /** Without a `user-agent:` line the loop never leaves its initial state. */
  lemma {:induction false} NoAgentKeepsInitial(rules: seq<Rule>)
    requires forall k :: 0 <= k < |rules| ==> !rules[k].AgentLine?
    ensures ScanFrom(Initial, rules) == Initial
  {
    if rules != [] {
      NoAgentKeepsInitial(rules[..|rules| - 1]);
    }
  }

  /** `disallow:` (and any other) lines before the first `user-agent:` line contribute nothing. */
  lemma LeadingLinesIgnored(p: seq<string>, q: seq<string>)
    requires forall k :: 0 <= k < |p| ==> !Classify(p[k]).AgentLine?
    ensures Scan(p + q) == Scan(q)
  {
    assert Rules(p + q) == Rules(p) + Rules(q);
    ScanAppend(Initial, Rules(p), Rules(q));
    NoAgentKeepsInitial(Rules(p));
  }

  /** A snapshot none of whose lines is a `user-agent:` line blocks nobody, whatever its `disallow:` lines. */
  lemma NoAgentLineNothingBlocked(text: string)
    requires forall k :: 0 <= k < |SplitLines(text)| ==> !Classify(SplitLines(text)[k]).AgentLine?
    ensures Blocked(Some(text)) == {}
  {
    NoAgentKeepsInitial(Rules(SplitLines(text)));
  }

  /** Rule `i` names agent `a` and no later rule names another. */
  ghost predicate InScope(rules: seq<Rule>, a: string, i: int) {
    0 <= i < |rules| && rules[i] == AgentLine(a) &&
    forall k :: i < k < |rules| ==> !rules[k].AgentLine?
  }

  /** Rule `j` is a `disallow:` line and `a`, named by rule `i`, is the most recent agent before it. */
  ghost predicate Governs(rules: seq<Rule>, a: string, i: int, j: int) {
    0 <= i < j < |rules| && rules[i] == AgentLine(a) && rules[j] == DisallowLine &&
    forall k :: i < k < j ==> !rules[k].AgentLine?
  }

  /** The agent in scope is the value of the most recent `user-agent:` line, and there is none before the first. */
  lemma {:induction false} CurrentIsMostRecent(rules: seq<Rule>, a: string)
    ensures ScanFrom(Initial, rules).current == Some(a) <==> exists i :: InScope(rules, a, i)
    ensures ScanFrom(Initial, rules).current == None <==> forall k :: 0 <= k < |rules| ==> !rules[k].AgentLine?
  {
    if rules != [] {
      var n := |rules|;
      var rules' := rules[..n - 1];
      CurrentIsMostRecent(rules', a);
      assert forall k :: 0 <= k < n - 1 ==> rules'[k] == rules[k];
      if rules[n - 1].AgentLine? {
        assert InScope(rules, rules[n - 1].name, n - 1);
        forall i | InScope(rules, a, i) ensures i == n - 1 { }
      } else {
        forall i | InScope(rules, a, i) ensures InScope(rules', a, i) { }
        forall i | InScope(rules', a, i) ensures InScope(rules, a, i) { }
      }
    }
  }

  lemma {:induction false} BlockedIffRules(rules: seq<Rule>, a: string)
    ensures a in ScanFrom(Initial, rules).blocked <==> a != "" && exists i, j :: Governs(rules, a, i, j)
  {
    if rules != [] {
      var n := |rules|;
      var rules' := rules[..n - 1];
      var st' := ScanFrom(Initial, rules');
      BlockedIffRules(rules', a);
      CurrentIsMostRecent(rules', a);
      assert forall k :: 0 <= k < n - 1 ==> rules'[k] == rules[k];
      if a in ScanFrom(Initial, rules).blocked {
        if a in st'.blocked {
          var i, j :| Governs(rules', a, i, j);
          assert Governs(rules, a, i, j);
        } else {
          var i :| InScope(rules', a, i);
          assert Governs(rules, a, i, n - 1);
        }
      }
      if a != "" && exists i, j :: Governs(rules, a, i, j) {
        var i, j :| Governs(rules, a, i, j);
        if j < n - 1 {
          assert Governs(rules', a, i, j);
        } else {
          assert InScope(rules', a, i);
        }
      }
    }
  }

  /**
   * An agent is blocked exactly when it is not the empty name and some
   * `disallow:` line falls while it is the value of the most recent
   * `user-agent:` line.
   */
  lemma BlockedIff(lines: seq<string>, a: string)
    ensures a in Scan(lines).blocked <==> a != "" && exists i, j :: Governs(Rules(lines), a, i, j)
  {
    BlockedIffRules(Rules(lines), a);
  }

  /** On a lowered line, the agent name is the lowered agent name of the original line. */
  lemma AgentNameOfLowered(s: string)
    requires IsAgentRule(Lower(s))
    ensures ':' in s && AgentName(Lower(s)) == Lower(Strip(AfterFirstColon(s)))
  {
    assert Lower(s)[10] == "user-agent:"[10];
    assert s[10] == ':';
    AfterFirstColonLower(s);
    StripLower(AfterFirstColon(s));
  }

  /** The name a `user-agent:` line puts in scope is stripped and lowercase. */
  lemma AgentNameNormalized(line: string)
    requires Classify(line).AgentLine?
    ensures IsStripped(Classify(line).name) && IsLowerCase(Classify(line).name)
  {
    var stripped := Strip(line);
    AgentNameOfLowered(stripped);
    var name := Lower(Strip(AfterFirstColon(stripped)));
    assert Classify(line).name == name;
    assert IsLowerCase(name);
  }

  lemma {:induction false} BlockedNamesNormalizedRules(rules: seq<Rule>)
    requires forall k :: 0 <= k < |rules| && rules[k].AgentLine? ==> IsStripped(rules[k].name) && IsLowerCase(rules[k].name)
    ensures forall a :: a in ScanFrom(Initial, rules).blocked ==> a != "" && IsStripped(a) && IsLowerCase(a)
    ensures Truthy(ScanFrom(Initial, rules).current) ==>
      IsStripped(ScanFrom(Initial, rules).current.value) && IsLowerCase(ScanFrom(Initial, rules).current.value)
  {
    if rules != [] {
      BlockedNamesNormalizedRules(rules[..|rules| - 1]);
    }
  }

  /** Reported names are never empty, carry no surrounding whitespace and hold no ASCII upper-case letter. */
  lemma BlockedNamesNormalized(lines: seq<string>)
    ensures forall a :: a in Scan(lines).blocked ==> a != "" && IsStripped(a) && IsLowerCase(a)
  {
    forall k | 0 <= k < |lines| && Classify(lines[k]).AgentLine?
      ensures IsStripped(Classify(lines[k]).name) && IsLowerCase(Classify(lines[k]).name)
    {
      AgentNameNormalized(lines[k]);
    }
    BlockedNamesNormalizedRules(Rules(lines));
  }

  /** Matching is case-insensitive: lowering the whole snapshot changes nothing. */
  lemma CaseInsensitive(text: string)
    ensures Blocked(Some(Lower(text))) == Blocked(Some(text))
  {
    var lines := SplitLines(text);
    SplitLinesLower(text);
    forall k | 0 <= k < |lines| ensures Classify(Lower(lines[k])) == Classify(lines[k]) {
      ClassifyLower(lines[k]);
    }
    assert Rules(LowerAll(lines)) == Rules(lines);
  }

  lemma ClassifyLower(line: string)
    ensures Classify(Lower(line)) == Classify(line)
  {
    StripLower(line);
    LowerIdempotent(Strip(line));
  }

  /** Whitespace around a line does not matter. */
  lemma WhitespaceTolerant(lines: seq<string>)
    ensures Scan(seq(|lines|, k requires 0 <= k < |lines| => Strip(lines[k]))) == Scan(lines)
  {
    var stripped := seq(|lines|, k requires 0 <= k < |lines| => Strip(lines[k]));
    forall k | 0 <= k < |lines| ensures Classify(stripped[k]) == Classify(lines[k]) {
      ClassifyStrip(lines[k]);
    }
    assert Rules(stripped) == Rules(lines);
  }

  lemma ClassifyStrip(line: string)
    ensures Classify(Strip(line)) == Classify(line)
  {
    StripIdempotent(line);
  }
}
