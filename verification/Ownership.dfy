/** Ownership directories and the most-specific-rule resolution that never guesses across teams. */
module Ownership {
  import opened Ordering

  /** A tag as supplied, with its key already stripped and lower-cased and its value stripped. */
  datatype Tag = Tag(key: string, value: string)

  datatype Team = Team(teamId: string, displayName: string)
  datatype RawRule = RawRule(ruleId: string, teamId: string, matchTags: seq<Tag>)
  datatype Rule = Rule(ruleId: string, teamId: string, matchTags: map<string, string>)
  datatype Directory = Directory(teams: map<string, Team>, rules: seq<Rule>)

  datatype Status = Resolved | Unmatched | Ambiguous

  datatype Resolution = Resolution(
    status: Status,
    teamId: Option<string>,
    matchedRuleIds: seq<string>,
    candidateTeamIds: seq<string>)

  // ---- tag maps ---------------------------------------------------------------------------

  predicate GoodTags(tags: seq<Tag>, allowEmpty: bool) {
    && (allowEmpty || tags != [])
    && (forall i :: 0 <= i < |tags| ==> tags[i].key != "" && tags[i].value != "")
    && (forall i, j :: 0 <= i < j < |tags| ==> tags[i].key != tags[j].key)
  }

  function TagMap(tags: seq<Tag>): (r: map<string, string>)
    ensures forall k :: k in r <==> exists i :: 0 <= i < |tags| && tags[i].key == k
  {
    if tags == [] then map[]
    else TagMap(tags[..|tags| - 1])[tags[|tags| - 1].key := tags[|tags| - 1].value]
  }

  /** One more tag after the first `n`. */
  lemma NextTag(tags: seq<Tag>, n: nat)
    requires n < |tags|
    ensures TagMap(tags[..n + 1]) == TagMap(tags[..n])[tags[n].key := tags[n].value]
    ensures GoodTags(tags[..n + 1], true) <==>
              GoodTags(tags[..n], true) && tags[n].key != "" && tags[n].value != "" && tags[n].key !in TagMap(tags[..n])
    ensures GoodTags(tags, true) ==> GoodTags(tags[..n + 1], true)
  {
    hide *;
    assert tags[..n + 1] == tags[..n] + [tags[n]];
    TagMapNext(tags[..n], tags[n]);
    TagTaken(tags, n);
    NextGoodTag(tags[..n], tags[n]);
    assert forall i :: 0 <= i < n ==> tags[..n][i] == tags[i];
    if GoodTags(tags, true) { FirstTags(tags, n + 1); }
  }

  lemma TagMapNext(tags: seq<Tag>, tag: Tag)
    ensures TagMap(tags + [tag]) == TagMap(tags)[tag.key := tag.value]
  {
    assert (tags + [tag])[..|tags|] == tags;
  }

  lemma TagTaken(tags: seq<Tag>, n: nat)
    requires n < |tags|
    ensures tags[n].key in TagMap(tags[..n]) <==> exists i :: 0 <= i < n && tags[i].key == tags[n].key
  {
    var a := tags[..n];
    if tags[n].key in TagMap(a) {
      var i :| 0 <= i < |a| && a[i].key == tags[n].key;
      assert tags[i].key == tags[n].key;
    }
    if i :| 0 <= i < n && tags[i].key == tags[n].key {
      assert a[i].key == tags[n].key;
    }
  }

  lemma NextGoodTag(tags: seq<Tag>, tag: Tag)
    ensures GoodTags(tags + [tag], true) <==>
              GoodTags(tags, true) && tag.key != "" && tag.value != "" && forall i :: 0 <= i < |tags| ==> tags[i].key != tag.key
  {
    var all := tags + [tag];
    assert all[|tags|] == tag && forall i :: 0 <= i < |tags| ==> all[i] == tags[i];
  }

  lemma FirstTags(tags: seq<Tag>, n: nat)
    requires n <= |tags| && GoodTags(tags, true)
    ensures GoodTags(tags[..n], true)
  {
  }

  method ReadTags(tags: seq<Tag>, allowEmpty: bool) returns (result: Result<map<string, string>>)
    ensures result.Ok? <==> GoodTags(tags, allowEmpty)
    ensures result.Ok? ==> result.value == TagMap(tags)
  {
    EmptyAllowed(tags, allowEmpty);
    hide *;
    var values: map<string, string> := map[];
    for n := 0 to |tags|
      invariant GoodTags(tags[..n], true) && values == TagMap(tags[..n])
    {
      NextTag(tags, n);
      if tags[n].key == "" || tags[n].value == "" {
        return Rejected;
      }
      if tags[n].key in values {
        return Rejected;
      }
      values := values[tags[n].key := tags[n].value];
    }
    assert tags[..|tags|] == tags;
    if tags == [] && !allowEmpty {
      return Rejected;
    }
    result := Ok(values);
  }

  lemma EmptyAllowed(tags: seq<Tag>, allowEmpty: bool)
    ensures GoodTags(tags, allowEmpty) <==> GoodTags(tags, true) && (allowEmpty || tags != [])
    ensures GoodTags(tags[..0], true) && TagMap(tags[..0]) == map[]
  {
  }

  // ---- `from_dict` ----------------------------------------------------------------------------

  predicate GoodTeams(teams: seq<Team>) {
    && (forall i :: 0 <= i < |teams| ==> teams[i].teamId != "" && teams[i].displayName != "")
    && (forall i, j :: 0 <= i < j < |teams| ==> teams[i].teamId != teams[j].teamId)
  }

  function TeamMap(teams: seq<Team>): (r: map<string, Team>)
    ensures forall k :: k in r <==> exists i :: 0 <= i < |teams| && teams[i].teamId == k
    ensures forall k :: k in r ==> r[k] in teams && r[k].teamId == k
  {
    if teams == [] then map[]
    else TeamMap(teams[..|teams| - 1])[teams[|teams| - 1].teamId := teams[|teams| - 1]]
  }

  predicate GoodRule(teams: map<string, Team>, r: RawRule) {
    r.ruleId != "" && r.teamId in teams && GoodTags(r.matchTags, false)
  }

  predicate GoodRules(teams: map<string, Team>, rules: seq<RawRule>) {
    && (forall i :: 0 <= i < |rules| ==> GoodRule(teams, rules[i]))
    && (forall i, j :: 0 <= i < j < |rules| ==> rules[i].ruleId != rules[j].ruleId)
  }

  function ToRule(r: RawRule): Rule {
    Rule(r.ruleId, r.teamId, TagMap(r.matchTags))
  }

  predicate RuleLe(a: Rule, b: Rule) {
    StrLe(a.ruleId, b.ruleId)
  }

  predicate GoodDirectory(teams: seq<Team>, rules: seq<RawRule>) {
    teams != [] && GoodTeams(teams) && rules != [] && GoodRules(TeamMap(teams), rules)
  }

  function DirectoryOf(teams: seq<Team>, rules: seq<RawRule>): Directory {
    Directory(TeamMap(teams), Sort(Map(rules, ToRule), RuleLe))
  }

  lemma NextTeam(teams: seq<Team>, n: nat)
    requires n < |teams|
    ensures TeamMap(teams[..n + 1]) == TeamMap(teams[..n])[teams[n].teamId := teams[n]]
    ensures GoodTeams(teams[..n + 1]) <==>
              GoodTeams(teams[..n]) && teams[n].teamId != "" && teams[n].displayName != "" && teams[n].teamId !in TeamMap(teams[..n])
    ensures GoodTeams(teams) ==> GoodTeams(teams[..n + 1])
  {
    hide *;
    assert teams[..n + 1] == teams[..n] + [teams[n]];
    TeamMapNext(teams[..n], teams[n]);
    TeamTaken(teams, n);
    NextGoodTeam(teams[..n], teams[n]);
    assert forall i :: 0 <= i < n ==> teams[..n][i] == teams[i];
    if GoodTeams(teams) { FirstTeams(teams, n + 1); }
  }

  lemma TeamMapNext(teams: seq<Team>, team: Team)
    ensures TeamMap(teams + [team]) == TeamMap(teams)[team.teamId := team]
  {
    assert (teams + [team])[..|teams|] == teams;
  }

  lemma NextGoodTeam(teams: seq<Team>, team: Team)
    ensures GoodTeams(teams + [team]) <==>
              GoodTeams(teams) && team.teamId != "" && team.displayName != "" && forall i :: 0 <= i < |teams| ==> teams[i].teamId != team.teamId
  {
    var all := teams + [team];
    assert all[|teams|] == team && forall i :: 0 <= i < |teams| ==> all[i] == teams[i];
  }

  lemma FirstTeams(teams: seq<Team>, n: nat)
    requires n <= |teams| && GoodTeams(teams)
    ensures GoodTeams(teams[..n])
  {
  }

  lemma TeamTaken(teams: seq<Team>, n: nat)
    requires n < |teams|
    ensures teams[n].teamId in TeamMap(teams[..n]) <==> exists i :: 0 <= i < n && teams[i].teamId == teams[n].teamId
  {
    var a := teams[..n];
    if teams[n].teamId in TeamMap(a) {
      var i :| 0 <= i < |a| && a[i].teamId == teams[n].teamId;
      assert teams[i].teamId == teams[n].teamId;
    }
    if i :| 0 <= i < n && teams[i].teamId == teams[n].teamId {
      assert a[i].teamId == teams[n].teamId;
    }
  }

  method ReadTeams(teams: seq<Team>) returns (result: Result<map<string, Team>>)
    ensures result.Ok? <==> GoodTeams(teams)
    ensures result.Ok? ==> result.value == TeamMap(teams)
  {
    NoTeams(teams);
    hide *;
    var byId: map<string, Team> := map[];
    for n := 0 to |teams|
      invariant GoodTeams(teams[..n]) && byId == TeamMap(teams[..n])
    {
      NextTeam(teams, n);
      if teams[n].teamId == "" || teams[n].displayName == "" {
        return Rejected;
      }
      if teams[n].teamId in byId {
        return Rejected;
      }
      byId := byId[teams[n].teamId := teams[n]];
    }
    assert teams[..|teams|] == teams;
    result := Ok(byId);
  }

  lemma NoTeams(teams: seq<Team>)
    ensures GoodTeams(teams[..0]) && TeamMap(teams[..0]) == map[]
  {
  }

  lemma NoBlankTeam(teams: seq<Team>)
    requires GoodTeams(teams)
    ensures "" !in TeamMap(teams)
  {
  }

  lemma NextRule(teams: map<string, Team>, rules: seq<RawRule>, n: nat)
    requires n < |rules|
    ensures Map(rules[..n + 1], ToRule) == Map(rules[..n], ToRule) + [ToRule(rules[n])]
    ensures GoodRules(teams, rules[..n + 1]) <==>
              GoodRules(teams, rules[..n]) && GoodRule(teams, rules[n]) && forall i :: 0 <= i < n ==> rules[i].ruleId != rules[n].ruleId
    ensures GoodRules(teams, rules) ==> GoodRules(teams, rules[..n + 1])
  {
    hide GoodRule, ToRule;
    NextGoodRule(teams, rules[..n], rules[n]);
    if GoodRules(teams, rules) { FirstRules(teams, rules, n + 1); }
    hide *;
    MapNext(rules[..n], rules[n], ToRule);
    assert rules[..n + 1] == rules[..n] + [rules[n]];
  }

  lemma NextGoodRule(teams: map<string, Team>, rules: seq<RawRule>, rule: RawRule)
    ensures GoodRules(teams, rules + [rule]) <==>
              GoodRules(teams, rules) && GoodRule(teams, rule) && forall i :: 0 <= i < |rules| ==> rules[i].ruleId != rule.ruleId
  {
    hide GoodRule;
    var all := rules + [rule];
    assert all[|rules|] == rule && forall i :: 0 <= i < |rules| ==> all[i] == rules[i];
  }

  lemma FirstRules(teams: map<string, Team>, rules: seq<RawRule>, n: nat)
    requires n <= |rules| && GoodRules(teams, rules)
    ensures GoodRules(teams, rules[..n])
  {
    hide GoodRule;
  }

  method ReadRules(teams: map<string, Team>, rules: seq<RawRule>) returns (result: Result<seq<Rule>>)
    requires "" !in teams
    ensures result.Ok? <==> GoodRules(teams, rules)
    ensures result.Ok? ==> result.value == Map(rules, ToRule)
  {
    hide TagMap, GoodTags, Map, GoodRules;
    var values: seq<Rule>, ids: set<string> := [], {};
    NoRules(teams, rules);
    for n := 0 to |rules|
      invariant GoodRules(teams, rules[..n]) && values == Map(rules[..n], ToRule)
      invariant forall id :: id in ids <==> exists i :: 0 <= i < n && rules[i].ruleId == id
    {
      var rule := rules[n];
      NextRule(teams, rules, n);
      if rule.ruleId == "" || rule.teamId == "" || rule.ruleId in ids || rule.teamId !in teams {
        return Rejected;
      }
      var tags := ReadTags(rule.matchTags, false);
      if tags.Rejected? {
        return Rejected;
      }
      assert forall i :: 0 <= i < n ==> rules[i].ruleId in ids;
      ids := ids + {rule.ruleId};
      values := values + [Rule(rule.ruleId, rule.teamId, tags.value)];
    }
    assert rules[..|rules|] == rules;
    result := Ok(values);
  }

  lemma NoRules(teams: map<string, Team>, rules: seq<RawRule>)
    ensures GoodRules(teams, rules[..0]) && Map(rules[..0], ToRule) == []
  {
  }

  method FromDict(teams: seq<Team>, rules: seq<RawRule>) returns (result: Result<Directory>)
    ensures result.Ok? <==> GoodDirectory(teams, rules)
    ensures result.Ok? ==> result.value == DirectoryOf(teams, rules)
  {
    hide TagMap, GoodTags, GoodTeams, GoodRules, TeamMap;
    if teams == [] {
      return Rejected;
    }
    var byId := ReadTeams(teams);
    if byId.Rejected? {
      return Rejected;
    }
    NoBlankTeam(teams);
    if rules == [] {
      return Rejected;
    }
    var read := ReadRules(byId.value, rules);
    if read.Rejected? {
      return Rejected;
    }
    result := Ok(Directory(byId.value, Sort(read.value, RuleLe)));
  }

  // ---- `resolve` -----------------------------------------------------------------------------------

  predicate Matches(r: Rule, tags: map<string, string>) {
    forall k :: k in r.matchTags ==> k in tags && tags[k] == r.matchTags[k]
  }

  function Specificity(r: Rule): nat {
    |r.matchTags|
  }

  /** `max(rule.specificity for rule in matches)` */
  function MaxSpecificity(rules: seq<Rule>): (m: nat)
    ensures forall i :: 0 <= i < |rules| ==> Specificity(rules[i]) <= m
    ensures rules != [] ==> exists i :: 0 <= i < |rules| && Specificity(rules[i]) == m
  {
    if rules == [] then 0
    else
      var rest := MaxSpecificity(rules[1..]);
      if rest <= Specificity(rules[0]) then Specificity(rules[0])
      else
        assert exists i :: 0 <= i < |rules[1..]| && Specificity(rules[1..][i]) == rest;
        rest
  }

  function MatchingRules(d: Directory, tags: map<string, string>): seq<Rule> {
    Filter(d.rules, (r: Rule) => Matches(r, tags))
  }

  function StrongestRules(d: Directory, tags: map<string, string>): seq<Rule> {
    var matches := MatchingRules(d, tags);
    Filter(matches, (r: Rule) => Specificity(r) == MaxSpecificity(matches))
  }

  function TeamIds(rules: seq<Rule>): set<string> {
    set i | 0 <= i < |rules| :: rules[i].teamId
  }

  function RuleId(r: Rule): string { r.ruleId }

  function Resolve(d: Directory, tags: map<string, string>): Resolution {
    if MatchingRules(d, tags) == [] then Resolution(Unmatched, None, [], [])
    else
      var strongest := StrongestRules(d, tags);
      var teams := SortedSet(TeamIds(strongest));
      var ids := Sort(Map(strongest, RuleId), StrLe);
      if |teams| == 1 then Resolution(Resolved, Some(teams[0]), ids, teams)
      else Resolution(Ambiguous, None, ids, teams)
  }

  method ResolveTags(d: Directory, tags: seq<Tag>) returns (result: Result<Resolution>)
    ensures result.Ok? <==> GoodTags(tags, true)
    ensures result.Ok? ==> result.value == Resolve(d, TagMap(tags))
  {
    var read := ReadTags(tags, true);
    if read.Rejected? {
      return Rejected;
    }
    result := Ok(Resolve(d, read.value));
  }

  // ---- what a resolution means ---------------------------------------------------------------------

  /** A matching rule that no matching rule exceeds in specificity. */
  ghost predicate Strongest(d: Directory, tags: map<string, string>, r: Rule) {
    && r in d.rules && Matches(r, tags)
    && forall other :: other in d.rules && Matches(other, tags) ==> Specificity(other) <= Specificity(r)
  }

  lemma StrongestMeans(d: Directory, tags: map<string, string>, r: Rule)
    ensures r in StrongestRules(d, tags) <==> Strongest(d, tags, r)
  {
    var matches := MatchingRules(d, tags);
    assert forall x :: x in matches <==> x in d.rules && Matches(x, tags);
    assert r in StrongestRules(d, tags) <==> r in matches && Specificity(r) == MaxSpecificity(matches);
    MaxSpecificityMeans(matches, r);
    hide Matches, Specificity, MaxSpecificity, MatchingRules, StrongestRules;
  }

  lemma MaxSpecificityMeans(rules: seq<Rule>, r: Rule)
    requires r in rules ==> rules != []
    ensures r in rules ==> (Specificity(r) == MaxSpecificity(rules) <==> forall x :: x in rules ==> Specificity(x) <= Specificity(r))
  {
    hide Specificity, MaxSpecificity;
    if r in rules {
      var i :| 0 <= i < |rules| && Specificity(rules[i]) == MaxSpecificity(rules);
      assert rules[i] in rules;
      forall x | x in rules ensures Specificity(x) <= MaxSpecificity(rules) {
        var j :| 0 <= j < |rules| && rules[j] == x;
      }
    }
  }

  lemma CandidateTeams(d: Directory, tags: map<string, string>, t: string)
    ensures t in TeamIds(StrongestRules(d, tags)) <==> exists r :: Strongest(d, tags, r) && r.teamId == t
  {
    var strongest := StrongestRules(d, tags);
    if t in TeamIds(strongest) {
      var i :| 0 <= i < |strongest| && strongest[i].teamId == t;
      assert strongest[i] in strongest;
      StrongestMeans(d, tags, strongest[i]);
    }
    if r :| Strongest(d, tags, r) && r.teamId == t {
      StrongestMeans(d, tags, r);
      var i :| 0 <= i < |strongest| && strongest[i] == r;
    }
  }

  lemma SomeStrongest(d: Directory, tags: map<string, string>)
    requires MatchingRules(d, tags) != []
    ensures exists r :: Strongest(d, tags, r)
  {
    var matches := MatchingRules(d, tags);
    var i :| 0 <= i < |matches| && Specificity(matches[i]) == MaxSpecificity(matches);
    assert matches[i] in matches;
    assert matches[i] in StrongestRules(d, tags);
    StrongestMeans(d, tags, matches[i]);
  }

  /** The strongest matching rules exist and all name team `t`. */
  ghost predicate SoleOwner(d: Directory, tags: map<string, string>, t: string) {
    (exists rule :: Strongest(d, tags, rule)) && forall rule :: Strongest(d, tags, rule) ==> rule.teamId == t
  }

  ghost predicate Contested(d: Directory, tags: map<string, string>) {
    exists a, b :: Strongest(d, tags, a) && Strongest(d, tags, b) && a.teamId != b.teamId
  }

  /** A team is chosen exactly when the strongest matching rules all name it; ties between teams
      are reported, never guessed. */
  lemma ResolutionMeans(d: Directory, tags: map<string, string>)
    ensures var r := Resolve(d, tags);
            && (r.status == Unmatched <==> forall rule :: rule in d.rules ==> !Matches(rule, tags))
            && (forall t :: r.teamId == Some(t) <==> SoleOwner(d, tags, t))
            && (r.status == Resolved <==> r.teamId.Some?)
            && (r.status == Ambiguous <==> Contested(d, tags))
  {
    NoMatch(d, tags);
    if MatchingRules(d, tags) != [] {
      SomeStrongest(d, tags);
      TeamsDecide(d, tags);
    }
    hide MatchingRules, StrongestRules, Strongest, TeamIds, Matches, SortedSet;
  }

  lemma NoMatch(d: Directory, tags: map<string, string>)
    ensures MatchingRules(d, tags) == [] <==> forall rule :: rule in d.rules ==> !Matches(rule, tags)
    ensures MatchingRules(d, tags) == [] ==> !Contested(d, tags) && forall t :: !SoleOwner(d, tags, t)
  {
    hide Matches;
    var matches := MatchingRules(d, tags);
    if matches != [] { assert matches[0] in matches; }
    forall rule | rule in d.rules && Matches(rule, tags) ensures matches != [] { assert rule in matches; }
  }

  lemma TeamsDecide(d: Directory, tags: map<string, string>)
    requires MatchingRules(d, tags) != [] && exists r :: Strongest(d, tags, r)
    ensures var teams := SortedSet(TeamIds(StrongestRules(d, tags)));
            && (forall t :: SoleOwner(d, tags, t) <==> |teams| == 1 && teams[0] == t)
            && (|teams| != 1 <==> Contested(d, tags))
  {
    hide Strongest, StrongestRules;
    var T := TeamIds(StrongestRules(d, tags));
    var teams := SortedSet(T);
    var some :| Strongest(d, tags, some);
    forall t ensures t in T <==> exists r :: Strongest(d, tags, r) && r.teamId == t { CandidateTeams(d, tags, t); }
    assert some.teamId in teams;
    if |teams| == 1 {
      forall r | Strongest(d, tags, r) ensures r.teamId == teams[0] {
        assert r.teamId in teams;
      }
    } else {
      assert teams[0] in teams && teams[1] in teams && teams[0] != teams[1];
      var a :| Strongest(d, tags, a) && a.teamId == teams[0];
      var b :| Strongest(d, tags, b) && b.teamId == teams[1];
    }
  }

  /** The teams and rules of a directory may be listed in any order. */
  lemma DirectoryAnyOrder(teams: seq<Team>, rules: seq<RawRule>, otherTeams: seq<Team>, otherRules: seq<RawRule>)
    requires GoodDirectory(teams, rules)
    requires multiset(teams) == multiset(otherTeams) && multiset(rules) == multiset(otherRules)
    ensures DirectoryOf(otherTeams, otherRules) == DirectoryOf(teams, rules)
  {
    TeamsAnyOrder(teams, otherTeams);
    MapPermutes(rules, otherRules, ToRule);
    var x, y := Map(rules, ToRule), Map(otherRules, ToRule);
    RuleLeIsTotalPreorder();
    SortPermutes(x, RuleLe);
    SortPermutes(y, RuleLe);
    SortSorts(x, RuleLe);
    SortSorts(y, RuleLe);
    RulesNeverTie(teams, rules);
    SortedUnique(Sort(x, RuleLe), Sort(y, RuleLe), RuleLe);
  }

  lemma RuleLeIsTotalPreorder()
    ensures TotalPreorder(RuleLe)
  {
    StrLeIsTotalPreorder();
  }

  lemma RulesNeverTie(teams: seq<Team>, rules: seq<RawRule>)
    requires GoodDirectory(teams, rules)
    ensures NeverTies(Sort(Map(rules, ToRule), RuleLe), RuleLe)
  {
    var x := Map(rules, ToRule);
    var sorted := Sort(x, RuleLe);
    SortPermutes(x, RuleLe);
    hide Sort, GoodDirectory, Map, RuleLe;
    forall a, b | a in sorted && b in sorted && RuleLe(a, b) && RuleLe(b, a) ensures a == b {
      assert a in x && b in x;
      SameRuleId(teams, rules, a, b);
    }
  }

  lemma SameRuleId(teams: seq<Team>, rules: seq<RawRule>, a: Rule, b: Rule)
    requires GoodDirectory(teams, rules) && a in Map(rules, ToRule) && b in Map(rules, ToRule)
    requires RuleLe(a, b) && RuleLe(b, a)
    ensures a == b
  {
    assert a.ruleId == b.ruleId by { hide *; RuleLeAntisymmetric(a, b); }
    DistinctRuleIds(teams, rules);
    RuleFrom(rules, a);
    RuleFrom(rules, b);
    hide *;
    var i :| 0 <= i < |rules| && a == ToRule(rules[i]) && a.ruleId == rules[i].ruleId;
    var j :| 0 <= j < |rules| && b == ToRule(rules[j]) && b.ruleId == rules[j].ruleId;
    assert !(i < j) && !(j < i);
  }

  lemma RuleLeAntisymmetric(a: Rule, b: Rule)
    requires RuleLe(a, b) && RuleLe(b, a)
    ensures a.ruleId == b.ruleId
  {
    hide StrLe;
    StrLeAntisymmetric(a.ruleId, b.ruleId);
  }

  lemma DistinctRuleIds(teams: seq<Team>, rules: seq<RawRule>)
    requires GoodDirectory(teams, rules)
    ensures forall i, j :: 0 <= i < j < |rules| ==> rules[i].ruleId != rules[j].ruleId
  {
    hide GoodTeams, GoodRule, TeamMap;
  }

  lemma RuleFrom(rules: seq<RawRule>, r: Rule)
    requires r in Map(rules, ToRule)
    ensures exists i :: 0 <= i < |rules| && r == ToRule(rules[i]) && r.ruleId == rules[i].ruleId
  {
    hide Map, TagMap;
    var i := MapMember(rules, ToRule, r);
    assert r == ToRule(rules[i]) && r.ruleId == rules[i].ruleId;
  }

  lemma TeamsAnyOrder(teams: seq<Team>, others: seq<Team>)
    requires GoodTeams(teams) && multiset(teams) == multiset(others)
    ensures TeamMap(teams) == TeamMap(others)
  {
    SamePermutation(teams, others);
    var x, y := TeamMap(teams), TeamMap(others);
    forall k ensures k in x <==> k in y {
      if k in x {
        assert x[k] in others;
        var j :| 0 <= j < |others| && others[j] == x[k];
      }
      if k in y {
        assert y[k] in teams;
        var i :| 0 <= i < |teams| && teams[i] == y[k];
      }
    }
    forall k | k in x ensures x[k] == y[k] {
      assert x[k] in teams && y[k] in teams;
      var i :| 0 <= i < |teams| && teams[i] == x[k];
      var j :| 0 <= j < |teams| && teams[j] == y[k];
    }
  }

  /** A directory that was read resolves only to teams it lists. */
  lemma ResolvedTeamListed(teams: seq<Team>, rules: seq<RawRule>, tags: map<string, string>)
    requires GoodDirectory(teams, rules)
    ensures var r := Resolve(DirectoryOf(teams, rules), tags); r.teamId.Some? ==> r.teamId.value in DirectoryOf(teams, rules).teams
  {
    var d := DirectoryOf(teams, rules);
    var x := Map(rules, ToRule);
    SortPermutes(x, RuleLe);
    ResolutionMeans(d, tags);
    hide Resolve, Matches, Specificity, TagMap, GoodTags;
    var r := Resolve(d, tags);
    if r.teamId.Some? {
      assert SoleOwner(d, tags, r.teamId.value);
      var rule :| Strongest(d, tags, rule);
      assert rule in x;
      var i :| 0 <= i < |x| && x[i] == rule;
      assert GoodRule(d.teams, rules[i]);
    }
  }
}
