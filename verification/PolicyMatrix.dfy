/** The authorization policy matrix: scoped decisions where a deny overrides, and
    the compilation that normalises a rule's selectors. */
module PolicyMatrix {
  import opened Text

  datatype Rule = Rule(
    name: string, effect: string, permissions: seq<string>, roles: seq<string>, subjects: seq<string>,
    clientIds: seq<string>, tenants: seq<string>, projects: seq<string>)

  datatype Identity = Identity(subject: string, clientId: string, roles: seq<string>)

  /** What a scoped check is asked. */
  datatype Query = Query(identity: Identity, permission: string, tenant: string, project: string)

  datatype Verdict = Granted | DeniedByRule | NoAllow

  // ---------- selectors ----------

  predicate MatchesSelector(selector: string, value: string) {
    var s := Trim(selector);
    s != "" &&
    (s == "*" ||
     (if s[|s| - 1] == '*' then HasPrefix(value, s[..|s| - 1]) else s == value))
  }

  /** An empty list selects everything, a list of blanks nothing. */
  predicate Selects(selectors: seq<string>, value: string) {
    selectors == [] || exists s :: s in selectors && MatchesSelector(s, Trim(value))
  }

  method SelectorMatches(selectors: seq<string>, value: string) returns (matched: bool)
    ensures matched == Selects(selectors, value)
  {
    if |selectors| == 0 { return true; }
    var trimmed := Trim(value);
    for i := 0 to |selectors|
      invariant forall s :: s in selectors[..i] ==> !MatchesSelector(s, trimmed)
    {
      var selector := Trim(selectors[i]);
      if selector != "" {
        var found := false;
        if selector == "*" {
          found := true;
        } else if selector[|selector| - 1] == '*' {
          found := HasPrefix(trimmed, selector[..|selector| - 1]);
        } else {
          found := selector == trimmed;
        }
        assert found == MatchesSelector(selectors[i], trimmed);
        if found { return true; }
      }
      assert !MatchesSelector(selectors[i], trimmed);
      assert selectors[..i + 1] == selectors[..i] + [selectors[i]];
    }
    assert selectors[..|selectors|] == selectors;
    return false;
  }

  predicate MatchesIdentity(rule: Rule, id: Identity) {
    Selects(rule.subjects, id.subject) && Selects(rule.clientIds, id.clientId) &&
    (rule.roles == [] || exists r :: r in id.roles && Selects(rule.roles, r))
  }

  predicate Applies(rule: Rule, q: Query) {
    MatchesIdentity(rule, q.identity) && Selects(rule.permissions, q.permission) &&
    Selects(rule.tenants, q.tenant) && Selects(rule.projects, q.project)
  }

  predicate Denies(rule: Rule, q: Query) { Lower(Trim(rule.effect)) == "deny" && Applies(rule, q) }

  predicate Allows(rule: Rule, q: Query) { Lower(Trim(rule.effect)) == "allow" && Applies(rule, q) }

  // ---------- the decision ----------

  method RuleMatchesIdentity(rule: Rule, id: Identity) returns (matched: bool)
    ensures matched == MatchesIdentity(rule, id)
  {
    var subject := SelectorMatches(rule.subjects, id.subject);
    if |rule.subjects| > 0 && !subject { return false; }
    var client := SelectorMatches(rule.clientIds, id.clientId);
    if |rule.clientIds| > 0 && !client { return false; }
    if |rule.roles| > 0 {
      var roleMatched := false;
      var i := 0;
      while i < |id.roles| && !roleMatched
        invariant 0 <= i <= |id.roles|
        invariant roleMatched <==> exists r :: r in id.roles[..i] && Selects(rule.roles, r)
      {
        assert id.roles[..i + 1] == id.roles[..i] + [id.roles[i]];
        roleMatched := SelectorMatches(rule.roles, id.roles[i]);
        i := i + 1;
      }
      assert id.roles[..|id.roles|] == id.roles;
      return roleMatched;
    }
    return true;
  }

  predicate SomeDenies(rules: seq<Rule>, q: Query) { exists r :: r in rules && Denies(r, q) }

  predicate SomeAllows(rules: seq<Rule>, q: Query) { exists r :: r in rules && Allows(r, q) }

  function Decision(rules: seq<Rule>, q: Query): Verdict {
    if SomeDenies(rules, q) then DeniedByRule
    else if rules == [] || SomeAllows(rules, q) then Granted
    else NoAllow
  }

  lemma OneMoreRule(rules: seq<Rule>, i: nat, q: Query)
    requires i < |rules|
    ensures SomeDenies(rules[..i + 1], q) <==> SomeDenies(rules[..i], q) || Denies(rules[i], q)
    ensures SomeAllows(rules[..i + 1], q) <==> SomeAllows(rules[..i], q) || Allows(rules[i], q)
  {
    assert rules[..i + 1] == rules[..i] + [rules[i]];
  }

  method RuleApplies(rule: Rule, id: Identity, permission: string, tenant: string, project: string)
    returns (applies: bool)
    ensures applies == Applies(rule, Query(id, permission, tenant, project))
  {
    applies := RuleMatchesIdentity(rule, id);
    if !applies { return; }
    applies := SelectorMatches(rule.permissions, permission);
    if !applies { return; }
    applies := SelectorMatches(rule.tenants, Trim(tenant));
    if !applies { return; }
    applies := SelectorMatches(rule.projects, Trim(project));
  }

  /** The scoped check: rules in order, stopping at the first matching deny. */
  method AuthorizeScoped(enabled: bool, identity: Option<Identity>, rules: seq<Rule>,
                         permission: string, tenant: string, project: string)
    returns (verdict: Verdict)
    ensures !enabled ==> verdict == Granted
    ensures enabled && identity.None? ==> verdict != Granted
    ensures enabled && identity.Some? ==>
      var q := Query(identity.value, permission, tenant, project);
      && verdict == Decision(rules, q)
      && (verdict == Granted <==> rules == [] || (SomeAllows(rules, q) && !SomeDenies(rules, q)))
  {
    if !enabled { return Granted; }
    if identity.None? { return NoAllow; }
    if |rules| == 0 { return Granted; }
    ghost var q := Query(identity.value, permission, tenant, project);
    var allowMatched := false;
    for i := 0 to |rules|
      invariant !SomeDenies(rules[..i], q)
      invariant allowMatched <==> SomeAllows(rules[..i], q)
    {
      var rule := rules[i];
      OneMoreRule(rules, i, q);
      var applies := RuleApplies(rule, identity.value, permission, tenant, project);
      if applies {
        var effect := Lower(Trim(rule.effect));
        if effect == "deny" {
          assert rule in rules && Denies(rule, q);
          return DeniedByRule;
        }
        if effect == "allow" { allowMatched := true; }
      }
    }
    assert rules[..|rules|] == rules;
    if !allowMatched { return NoAllow; }
    return Granted;
  }

  /** Order and repetition of rules do not matter. */
  lemma OrderIrrelevant(a: seq<Rule>, b: seq<Rule>, q: Query)
    requires forall r :: r in a <==> r in b
    ensures Decision(a, q) == Decision(b, q)
  {
    assert a != [] ==> a[0] in a;
    assert b != [] ==> b[0] in b;
  }

  /** Where a rule is inserted does not matter; a deny there never grants what was
      refused, an allow never refuses what a non-empty matrix granted. */
  lemma AddingRules(before: seq<Rule>, after: seq<Rule>, rule: Rule, q: Query)
    requires before + after != []
    ensures var was, now := Decision(before + after, q), Decision(before + [rule] + after, q);
      && (Lower(Trim(rule.effect)) == "deny" && now == Granted ==> was == Granted)
      && (Lower(Trim(rule.effect)) == "allow" && was == Granted ==> now == Granted)
      && (!Applies(rule, q) ==> now == was)
  {
    var was, now := before + after, before + [rule] + after;
    assert forall r :: r in now <==> r in was || r == rule;
    assert Lower(Trim(rule.effect)) == "deny" ==> !Allows(rule, q);
    assert Lower(Trim(rule.effect)) == "allow" ==> !Denies(rule, q);
  }

  /** On an empty matrix the first allow can refuse what was granted to all. */
  lemma FirstAllowMayRefuse(rule: Rule, q: Query)
    ensures Decision([], q) == Granted
    ensures Decision([rule], q) == Granted <==> Allows(rule, q)
  {
    assert forall r :: r in [rule] <==> r == rule;
    if Allows(rule, q) {
      assert rule in [rule] && !Denies(rule, q);
    } else if Denies(rule, q) {
      assert rule in [rule];
    }
  }

  // ---------- sorted unique lists ----------

  predicate Increasing(s: seq<string>) { forall i, j :: 0 <= i < j < |s| ==> Less(s[i], s[j]) }

  predicate Distinct(s: seq<string>) { forall i, j :: 0 <= i < j < |s| ==> s[i] != s[j] }

  /** The trimmed nonblank texts of a list. */
  function Texts(items: seq<string>): set<string> {
    set s | s in items && Trim(s) != "" :: Trim(s)
  }

  function Elements(s: seq<string>): set<string> { set x | x in s }

  /** The trimmed items in order of first appearance. */
  method UniqueTrimmed(items: seq<string>) returns (out: seq<string>)
    ensures Distinct(out) && Elements(out) == Texts(items)
  {
    out := [];
    var seen: set<string> := {};
    for i := 0 to |items|
      invariant Distinct(out) && Elements(out) == seen == Texts(items[..i])
    {
      assert items[..i + 1] == items[..i] + [items[i]];
      var trimmed := Trim(items[i]);
      if trimmed != "" && trimmed !in seen {
        assert trimmed !in out;
        seen := seen + {trimmed};
        out := out + [trimmed];
      }
    }
    assert items[..|items|] == items;
  }

  /** The insertion sort, swapping neighbours in place. */
  method SortInPlace(a: array<string>)
    requires Distinct(a[..])
    modifies a
    ensures Increasing(a[..]) && Elements(a[..]) == Elements(old(a[..]))
  {
    var i := 1;
    while i < a.Length
      invariant a.Length == 0 || 1 <= i <= a.Length
      invariant Increasing(a[..if a.Length == 0 then 0 else i])
      invariant Distinct(a[..]) && Elements(a[..]) == Elements(old(a[..]))
    {
      SinkDown(a, i);
      i := i + 1;
    }
    assert a.Length > 0 ==> a[..] == a[..i];
  }

  /** The inner loop: the element at `i` moves down to its place. */
  method SinkDown(a: array<string>, i: nat)
    requires 1 <= i < a.Length && Increasing(a[..i]) && Distinct(a[..])
    modifies a
    ensures Increasing(a[..i + 1]) && Distinct(a[..]) && Elements(a[..]) == Elements(old(a[..]))
  {
    var j := i;
    while j > 0 && Less(a[j], a[j - 1])
      invariant 0 <= j <= i
      invariant Distinct(a[..]) && Elements(a[..]) == Elements(old(a[..]))
      invariant IncreasingBut(a[..i + 1], j)
    {
      ghost var was := a[..];
      a[j], a[j - 1] := a[j - 1], a[j];
      SwapKeeps(was, a[..], j);
      SwapSinks(was[..i + 1], a[..i + 1], j);
      j := j - 1;
    }
    if j > 0 { LessTotal(a[j], a[j - 1]); }
    BottomIsPlace(a[..i + 1], j);
  }

  /** Increasing but for position `j`, whose element is below all after it. */
  predicate IncreasingBut(s: seq<string>, j: nat) {
    j < |s| &&
    (forall x, y :: 0 <= x < y < |s| && x != j && y != j ==> Less(s[x], s[y])) &&
    (forall y :: j < y < |s| ==> Less(s[j], s[y]))
  }

  lemma SwapKeeps(s: seq<string>, t: seq<string>, j: nat)
    requires 0 < j < |s| == |t| && Distinct(s)
    requires t == s[j := s[j - 1]][j - 1 := s[j]]
    ensures Distinct(t) && Elements(t) == Elements(s)
  {
    forall x | x in s ensures x in t {
      var k :| 0 <= k < |s| && s[k] == x;
      assert t[if k == j then j - 1 else if k == j - 1 then j else k] == x;
    }
  }

  lemma SwapSinks(s: seq<string>, t: seq<string>, j: nat)
    requires IncreasingBut(s, j) && 0 < j && |t| == |s| && Less(s[j], s[j - 1])
    requires t == s[j := s[j - 1]][j - 1 := s[j]]
    ensures IncreasingBut(t, j - 1)
  {
  }

  lemma BottomIsPlace(s: seq<string>, j: nat)
    requires IncreasingBut(s, j) && (j > 0 ==> Less(s[j - 1], s[j]))
    ensures Increasing(s)
  {
    forall x | 0 <= x < j ensures Less(s[x], s[j]) {
      if x < j - 1 { LessTransitive(s[x], s[j - 1], s[j]); }
    }
  }

  method SortedUnique(items: seq<string>) returns (out: seq<string>)
    ensures Increasing(out) && Elements(out) == Texts(items)
    ensures out == Sorted(items)
  {
    var unique := UniqueTrimmed(items);
    var a := new string[|unique|](i requires 0 <= i < |unique| => unique[i]);
    assert a[..] == unique;
    SortInPlace(a);
    out := a[..];
    SortedIs(items);
    OneIncreasingList(out, Sorted(items));
  }

  // ---------- the list as a function of its items ----------

  function InsertText(s: seq<string>, x: string): seq<string> {
    if s == [] then [x]
    else if s[0] == x then s
    else if Less(x, s[0]) then [x] + s
    else [s[0]] + InsertText(s[1..], x)
  }

  function Sorted(items: seq<string>): seq<string> {
    if items == [] then []
    else if Trim(items[0]) == "" then Sorted(items[1..])
    else InsertText(Sorted(items[1..]), Trim(items[0]))
  }

  lemma {:induction false} InsertTextKeeps(s: seq<string>, x: string)
    requires Increasing(s)
    ensures Increasing(InsertText(s, x)) && Elements(InsertText(s, x)) == Elements(s) + {x}
  {
    if s != [] && s[0] != x {
      if Less(x, s[0]) {
        forall k | 0 < k < |s| ensures Less(x, s[k]) { LessTransitive(x, s[0], s[k]); }
        assert Elements([x] + s) == {x} + Elements(s);
      } else {
        LessTotal(x, s[0]);
        InsertTextKeeps(s[1..], x);
        FrontKept(s, x, InsertText(s[1..], x));
      }
    } else if s != [] {
      assert s[0] in s;
    }
  }

  lemma FrontKept(s: seq<string>, x: string, rest: seq<string>)
    requires s != [] && Increasing(s) && Less(s[0], x)
    requires Increasing(rest) && Elements(rest) == Elements(s[1..]) + {x}
    ensures Increasing([s[0]] + rest) && Elements([s[0]] + rest) == Elements(s) + {x}
  {
    forall k | 0 <= k < |rest| ensures Less(s[0], rest[k]) {
      assert rest[k] in Elements(rest);
      if rest[k] != x {
        var i :| 0 <= i < |s[1..]| && s[1..][i] == rest[k];
        assert s[i + 1] == rest[k];
      }
    }
    assert s == [s[0]] + s[1..];
    assert Elements([s[0]] + rest) == {s[0]} + Elements(rest);
  }

  /** Strictly increasing, and exactly the trimmed nonblank items. */
  lemma {:induction false} SortedIs(items: seq<string>)
    ensures Increasing(Sorted(items)) && Elements(Sorted(items)) == Texts(items)
  {
    if items != [] {
      assert items == [items[0]] + items[1..];
      SortedIs(items[1..]);
      assert Texts(items) == Texts(items[1..]) + (if Trim(items[0]) == "" then {} else {Trim(items[0])});
      if Trim(items[0]) != "" { InsertTextKeeps(Sorted(items[1..]), Trim(items[0])); }
    }
  }

  /** A strictly increasing list is determined by its elements. */
  lemma {:induction false} OneIncreasingList(a: seq<string>, b: seq<string>)
    requires Increasing(a) && Increasing(b) && Elements(a) == Elements(b)
    ensures a == b
  {
    assert a != [] ==> a[0] in Elements(a);
    assert b != [] ==> b[0] in Elements(b);
    if a != [] && b != [] {
      LeastFirst(a, b);
      TailElements(a);
      TailElements(b);
      OneIncreasingList(a[1..], b[1..]);
      assert a == [a[0]] + a[1..] && b == [b[0]] + b[1..];
    }
  }

  lemma LeastFirst(a: seq<string>, b: seq<string>)
    requires Increasing(a) && Increasing(b) && a != [] && b != [] && Elements(a) == Elements(b)
    ensures a[0] == b[0]
  {
    assert a[0] in Elements(b) && b[0] in Elements(a);
    var i :| 0 <= i < |b| && b[i] == a[0];
    var j :| 0 <= j < |a| && a[j] == b[0];
    if i > 0 && j > 0 {
      LessTransitive(b[0], b[i], a[j]);
      LessIrreflexive(b[0]);
    }
  }

  lemma TailElements(a: seq<string>)
    requires Increasing(a) && a != []
    ensures Elements(a[1..]) == Elements(a) - {a[0]}
  {
    LessIrreflexive(a[0]);
    forall x | x in a && x != a[0] ensures x in a[1..] {
      var i :| 0 <= i < |a| && a[i] == x;
      assert a[1..][i - 1] == x;
    }
  }

  /** Neither order nor repetition of the items matters. */
  lemma SortedDependsOnTexts(items: seq<string>, others: seq<string>)
    requires Texts(items) == Texts(others)
    ensures Sorted(items) == Sorted(others)
  {
    SortedIs(items);
    SortedIs(others);
    OneIncreasingList(Sorted(items), Sorted(others));
  }

  /** Sorting again changes nothing. */
  lemma SortedTwice(items: seq<string>)
    ensures Sorted(Sorted(items)) == Sorted(items)
  {
    SortedIs(items);
    var sorted := Sorted(items);
    forall x | x in sorted ensures Trim(x) == x && x != "" {
      assert x in Elements(sorted) && x in Texts(items);
    }
    assert Texts(sorted) == Elements(sorted) by {
      forall x | x in Elements(sorted) ensures x in Texts(sorted) { assert Trim(x) == x; }
    }
    SortedIs(sorted);
    OneIncreasingList(Sorted(sorted), sorted);
  }

  // ---------- compilation ----------

  datatype Compiled = Rules(rules: seq<Rule>) | InvalidEffect(index: nat)

  function EffectOf(rule: Rule): string {
    if Lower(Trim(rule.effect)) == "" then "allow" else Lower(Trim(rule.effect))
  }

  predicate ValidEffect(rule: Rule) { EffectOf(rule) == "allow" || EffectOf(rule) == "deny" }

  function CompiledRule(rule: Rule, index: nat): Rule {
    Rule(if Trim(rule.name) == "" then "policy-rule-" + Decimal(index + 1) else Trim(rule.name), EffectOf(rule),
         Sorted(rule.permissions), Sorted(rule.roles), Sorted(rule.subjects),
         Sorted(rule.clientIds), Sorted(rule.tenants), Sorted(rule.projects))
  }

  function Decimal(n: nat): string {
    if n < 10 then [('0' as int + n) as char] else Decimal(n / 10) + [('0' as int + n % 10) as char]
  }

  predicate CompilesTo(rule: Rule, index: nat, compiled: Rule) {
    ValidEffect(rule) && compiled == CompiledRule(rule, index)
  }

  predicate IsCompiled(rules: seq<Rule>, compiled: seq<Rule>) {
    |compiled| == |rules| && forall i :: 0 <= i < |rules| ==> CompilesTo(rules[i], i, compiled[i])
  }

  lemma OneMoreCompiled(rules: seq<Rule>, compiled: seq<Rule>, n: nat, next: Rule)
    requires n < |rules| && IsCompiled(rules[..n], compiled)
    requires CompilesTo(rules[n], n, next)
    ensures IsCompiled(rules[..n + 1], compiled + [next])
  {
    forall i | 0 <= i <= n ensures CompilesTo(rules[..n + 1][i], i, (compiled + [next])[i]) {
      if i < n { assert CompilesTo(rules[..n][i], i, compiled[i]); }
    }
  }

  lemma PrefixIsValid(rules: seq<Rule>, compiled: seq<Rule>, n: nat)
    requires n <= |rules| && IsCompiled(rules[..n], compiled)
    ensures forall i :: 0 <= i < n ==> ValidEffect(rules[i])
  {
    forall i | 0 <= i < n ensures ValidEffect(rules[i]) { assert CompilesTo(rules[..n][i], i, compiled[i]); }
  }

  /** One rule compiled, or nothing for an effect that is neither allow nor deny. */
  method CompileRule(rule: Rule, index: nat) returns (compiled: Option<Rule>)
    ensures compiled == if ValidEffect(rule) then Some(CompiledRule(rule, index)) else None
  {
    var effect := Lower(Trim(rule.effect));
    if effect == "" { effect := "allow"; }
    if effect != "allow" && effect != "deny" { return None; }
    var name := Trim(rule.name);
    if name == "" { name := "policy-rule-" + Decimal(index + 1); }
    var permissions := SortedUnique(rule.permissions);
    var roles := SortedUnique(rule.roles);
    var subjects := SortedUnique(rule.subjects);
    var clientIds := SortedUnique(rule.clientIds);
    var tenants := SortedUnique(rule.tenants);
    var projects := SortedUnique(rule.projects);
    return Some(Rule(name, effect, permissions, roles, subjects, clientIds, tenants, projects));
  }

  method CompilePolicyMatrix(rules: seq<Rule>) returns (result: Compiled)
    ensures result.InvalidEffect? ==>
      result.index < |rules| && !ValidEffect(rules[result.index]) &&
      forall i :: 0 <= i < result.index ==> ValidEffect(rules[i])
    ensures result.Rules? ==> IsCompiled(rules, result.rules)
    ensures result.Rules? && (forall r :: r in rules ==> Faithful(r)) ==>
      forall q :: Decision(result.rules, q) == Decision(rules, q)
  {
    var normalized: seq<Rule> := [];
    for idx := 0 to |rules|
      invariant IsCompiled(rules[..idx], normalized)
    {
      var compiled := CompileRule(rules[idx], idx);
      if compiled.None? {
        PrefixIsValid(rules, normalized, idx);
        return InvalidEffect(idx);
      }
      OneMoreCompiled(rules, normalized, idx, compiled.value);
      normalized := normalized + [compiled.value];
    }
    assert rules[..|rules|] == rules;
    KeepsVerdicts(rules, normalized);
    return Rules(normalized);
  }

  /** A list that has entries, all of them blank. */
  predicate BlankOnly(selectors: seq<string>) { selectors != [] && Texts(selectors) == {} }

  /** Compilation turns a blank-only list from nothing into everything and leaves
      the meaning of every other list alone. */
  lemma SelectsAfterSorting(selectors: seq<string>, value: string)
    ensures !BlankOnly(selectors) ==> Selects(Sorted(selectors), value) == Selects(selectors, value)
    ensures BlankOnly(selectors) ==> !Selects(selectors, value) && Sorted(selectors) == []
  {
    if Texts(selectors) == {} {
      NoTextNoSelector(selectors);
    } else {
      SomeTextSelects(selectors, value);
    }
  }

  lemma FirstIsElement(s: seq<string>)
    ensures s != [] ==> s[0] in Elements(s)
  {
  }

  /** Without a text the list sorts to nothing, and none of its selectors matches. */
  lemma NoTextNoSelector(selectors: seq<string>)
    requires Texts(selectors) == {}
    ensures Sorted(selectors) == [] && forall s :: s in selectors ==> Trim(s) == ""
  {
    SortedIs(selectors);
    FirstIsElement(Sorted(selectors));
    forall s | s in selectors ensures Trim(s) == "" {
      assert Trim(s) != "" ==> Trim(s) in Texts(selectors);
    }
  }

  lemma SomeTextSelects(selectors: seq<string>, value: string)
    requires Texts(selectors) != {}
    ensures Selects(Sorted(selectors), value) == Selects(selectors, value)
  {
    SortedIs(selectors);
    assert Sorted(selectors) != [] && selectors != [];
    MatchesInBoth(selectors, Sorted(selectors), Trim(value));
  }

  predicate SomeMatches(selectors: seq<string>, value: string) {
    exists s :: s in selectors && MatchesSelector(s, value)
  }

  /** A selector means what its text does. */
  lemma TextMatches(selector: string, value: string)
    ensures MatchesSelector(Trim(selector), value) == MatchesSelector(selector, value)
  {
    assert Trim(Trim(selector)) == Trim(selector);
  }

  lemma MatchesInBoth(selectors: seq<string>, texts: seq<string>, value: string)
    requires Elements(texts) == Texts(selectors)
    ensures SomeMatches(texts, value) <==> SomeMatches(selectors, value)
  {
    if SomeMatches(selectors, value) {
      var s :| s in selectors && MatchesSelector(s, value);
      TextMatches(s, value);
      assert Trim(s) in Texts(selectors) && Trim(s) in Elements(texts);
    }
    if SomeMatches(texts, value) { TextIsOfSelector(selectors, texts, value); }
  }

  lemma TextIsOfSelector(selectors: seq<string>, texts: seq<string>, value: string)
    requires Elements(texts) == Texts(selectors) && SomeMatches(texts, value)
    ensures SomeMatches(selectors, value)
  {
    var t :| t in texts && MatchesSelector(t, value);
    assert t in Elements(texts);
    var s :| s in selectors && Trim(s) != "" && Trim(s) == t;
    TextMatches(s, value);
  }

  predicate SomeListBlankOnly(rule: Rule) {
    BlankOnly(rule.permissions) || BlankOnly(rule.roles) || BlankOnly(rule.subjects) ||
    BlankOnly(rule.clientIds) || BlankOnly(rule.tenants) || BlankOnly(rule.projects)
  }

  /** Some value a selector list selects; none is needed for a blank-only one. */
  lemma SomethingSelected(selectors: seq<string>) returns (value: string)
    requires !BlankOnly(selectors)
    ensures Selects(selectors, value)
  {
    value := "";
    if selectors != [] {
      var t :| t in Texts(selectors);
      var s :| s in selectors && Trim(s) == t && t != "";
      value := MatchFor(t);
      MatchesTrimmed(s, Trim(value));
    }
  }

  lemma MatchesTrimmed(s: string, value: string)
    ensures MatchesSelector(s, value) == MatchesSelector(Trim(s), value)
  {
  }

  /** A trimmed value that a trimmed selector matches. */
  lemma MatchFor(t: string) returns (value: string)
    requires t != "" && Trimmed(t)
    ensures MatchesSelector(t, Trim(value))
  {
    if t[|t| - 1] == '*' && t != "*" {
      value := t[..|t| - 1] + "x";
      assert value[0] == t[0] && value[|value| - 1] == 'x';
      assert Trimmed(value) && t[..|t| - 1] <= value;
    } else {
      value := t;
    }
  }

  predicate SameMeaning(a: Rule, b: Rule, q: Query) {
    Allows(a, q) == Allows(b, q) && Denies(a, q) == Denies(b, q)
  }

  lemma AppliesAfterCompiling(rule: Rule, index: nat, q: Query)
    requires !SomeListBlankOnly(rule)
    ensures Applies(CompiledRule(rule, index), q) == Applies(rule, q)
  {
    SelectsAfterSorting(rule.permissions, q.permission);
    SelectsAfterSorting(rule.subjects, q.identity.subject);
    SelectsAfterSorting(rule.clientIds, q.identity.clientId);
    SelectsAfterSorting(rule.tenants, q.tenant);
    SelectsAfterSorting(rule.projects, q.project);
    SelectsAfterSorting(rule.roles, "");
    SortedIs(rule.roles);
    forall r ensures Selects(Sorted(rule.roles), r) == Selects(rule.roles, r) { SelectsAfterSorting(rule.roles, r); }
    if rule.roles != [] {
      assert Elements(Sorted(rule.roles)) != {};
      assert Sorted(rule.roles) != [];
    }
  }

  lemma EffectReads(rule: Rule)
    requires ValidEffect(rule)
    ensures Lower(Trim(EffectOf(rule))) == EffectOf(rule)
  {
    LowerIdempotent(Trim(rule.effect));
    assert Trimmed(Lower(Trim(rule.effect)));
  }

  /** A query that a compiled rule applies to. */
  lemma SomethingApplies(rule: Rule, index: nat) returns (q: Query)
    ensures Applies(CompiledRule(rule, index), q)
  {
    var permission := SomethingSelectedSorted(rule.permissions);
    var subject := SomethingSelectedSorted(rule.subjects);
    var client := SomethingSelectedSorted(rule.clientIds);
    var tenant := SomethingSelectedSorted(rule.tenants);
    var project := SomethingSelectedSorted(rule.projects);
    var role := SomethingSelectedSorted(rule.roles);
    q := Query(Identity(subject, client, [role]), permission, tenant, project);
    assert role in q.identity.roles;
  }

  lemma SomethingSelectedSorted(selectors: seq<string>) returns (value: string)
    ensures Selects(Sorted(selectors), value)
  {
    SortedIs(selectors);
    var sorted := Sorted(selectors);
    if sorted != [] {
      assert sorted[0] in Elements(sorted) && sorted[0] in Texts(selectors);
      assert Trim(sorted[0]) == sorted[0];
      assert sorted[0] in Texts(sorted);
    }
    value := SomethingSelected(sorted);
  }

  /** Compiling a rule keeps its meaning for every query exactly when its effect
      is written out and none of its lists is blank-only. */
  lemma CompilingPreservesExactly(rule: Rule, index: nat)
    requires ValidEffect(rule)
    ensures (forall q :: SameMeaning(rule, CompiledRule(rule, index), q))
      <==> Trim(rule.effect) != "" && !SomeListBlankOnly(rule)
  {
    var compiled := CompiledRule(rule, index);
    EffectReads(rule);
    if Trim(rule.effect) != "" && !SomeListBlankOnly(rule) {
      forall q ensures SameMeaning(rule, compiled, q) { AppliesAfterCompiling(rule, index, q); }
    } else {
      var q := SomethingApplies(rule, index);
      if Trim(rule.effect) == "" {
        assert Allows(compiled, q) && !Allows(rule, q);
      } else {
        BlankOnlyNeverApplies(rule, q);
        assert Allows(compiled, q) || Denies(compiled, q);
      }
      assert !SameMeaning(rule, compiled, q);
    }
  }

  lemma BlankOnlyNeverApplies(rule: Rule, q: Query)
    requires SomeListBlankOnly(rule)
    ensures !Applies(rule, q)
  {
    SelectsAfterSorting(rule.permissions, q.permission);
    SelectsAfterSorting(rule.subjects, q.identity.subject);
    SelectsAfterSorting(rule.clientIds, q.identity.clientId);
    SelectsAfterSorting(rule.tenants, q.tenant);
    SelectsAfterSorting(rule.projects, q.project);
    forall r ensures BlankOnly(rule.roles) ==> !Selects(rule.roles, r) { SelectsAfterSorting(rule.roles, r); }
  }

  // ---------- the compiled matrix ----------

  /** The rule's effect is written out and none of its lists is blank-only. */
  predicate Faithful(rule: Rule) { Trim(rule.effect) != "" && !SomeListBlankOnly(rule) }

  lemma {:induction false} SomeAlike(a: seq<Rule>, b: seq<Rule>, q: Query, n: nat)
    requires |a| == |b| && n <= |a| && forall i :: 0 <= i < |a| ==> SameMeaning(a[i], b[i], q)
    ensures SomeDenies(a[..n], q) == SomeDenies(b[..n], q) && SomeAllows(a[..n], q) == SomeAllows(b[..n], q)
  {
    if n > 0 {
      SomeAlike(a, b, q, n - 1);
      OneMoreRule(a, n - 1, q);
      OneMoreRule(b, n - 1, q);
      assert SameMeaning(a[n - 1], b[n - 1], q);
    }
  }

  /** A matrix of faithful rules decides every query as it did before compiling. */
  lemma CompiledMatrixDecidesAlike(rules: seq<Rule>, compiled: seq<Rule>, q: Query)
    requires IsCompiled(rules, compiled) && forall r :: r in rules ==> Faithful(r)
    ensures Decision(compiled, q) == Decision(rules, q)
  {
    forall i | 0 <= i < |rules| ensures SameMeaning(rules[i], compiled[i], q) {
      assert Faithful(rules[i]);
      KeepsMeaning(rules[i], i, q);
    }
    SomeAlike(rules, compiled, q, |rules|);
    assert rules[..|rules|] == rules && compiled[..|rules|] == compiled;
  }

  lemma KeepsMeaning(rule: Rule, index: nat, q: Query)
    requires ValidEffect(rule) && Faithful(rule)
    ensures SameMeaning(rule, CompiledRule(rule, index), q)
  {
    CompilingPreservesExactly(rule, index);
  }

  lemma KeepsVerdicts(rules: seq<Rule>, compiled: seq<Rule>)
    requires IsCompiled(rules, compiled)
    ensures (forall r :: r in rules ==> Faithful(r)) ==> forall q :: Decision(compiled, q) == Decision(rules, q)
  {
    if forall r :: r in rules ==> Faithful(r) {
      forall q ensures Decision(compiled, q) == Decision(rules, q) { CompiledMatrixDecidesAlike(rules, compiled, q); }
    }
  }

  /** One unfaithful rule is enough for a query that is decided otherwise: the
      matrix of that rule alone keeps every verdict exactly when it is faithful. */
  lemma LoneRuleKeepsVerdictsExactly(rule: Rule)
    requires ValidEffect(rule)
    ensures (forall q :: Decision([CompiledRule(rule, 0)], q) == Decision([rule], q)) <==> Faithful(rule)
  {
    var compiled := CompiledRule(rule, 0);
    if Faithful(rule) {
      forall q ensures Decision([compiled], q) == Decision([rule], q) {
        CompiledMatrixDecidesAlike([rule], [compiled], q);
      }
    } else {
      CompilingPreservesExactly(rule, 0);
      var q :| !SameMeaning(rule, compiled, q);
      LoneDecision(rule, q);
      LoneDecision(compiled, q);
    }
  }

  lemma LoneDecision(rule: Rule, q: Query)
    ensures Decision([rule], q)
      == if Denies(rule, q) then DeniedByRule else if Allows(rule, q) then Granted else NoAllow
    ensures !(Allows(rule, q) && Denies(rule, q))
  {
    assert rule in [rule];
  }
}
