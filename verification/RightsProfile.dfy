/**
 What a Rights Passport lets its asset's controller issue: the profile built from the passport's rules
 and the guards in front of an instrument.
 */
module RightsProfile {
  import opened Prelude

  /** One rule of a passport; effect and actions as written. */
  datatype Rule = Rule(effect: string, actions: seq<string>, detail: string)

  /** effect(e): upper case. token(a): stripped upper case. */
  datatype Spelling = Spelling(effect: string -> string, token: string -> string)

  datatype Profile = Profile(allowed: map<string, Rule>, prohibited: map<string, Rule>, other: map<string, Rule>)

  const ALLOW := "ALLOW"
  const PROHIBIT := "PROHIBIT"

  /** Some rule with that effect names the action. */
  ghost predicate Granted(sp: Spelling, rules: seq<Rule>, effect: string, action: string) {
    && action != ""
    && exists i, j ::
         && 0 <= i < |rules| && 0 <= j < |rules[i].actions|
         && sp.effect(rules[i].effect) == effect && sp.token(rules[i].actions[j]) == action
  }

  ghost predicate Names(sp: Spelling, rule: Rule, action: string) {
    exists j :: 0 <= j < |rule.actions| && sp.token(rule.actions[j]) == action
  }

  /** The k-th rule is the last with such an effect that names the action. */
  ghost predicate LastNaming(sp: Spelling, rules: seq<Rule>, effect: string -> bool, action: string, k: int) {
    && 0 <= k < |rules| && effect(sp.effect(rules[k].effect)) && Names(sp, rules[k], action)
    && forall m :: k < m < |rules| && effect(sp.effect(rules[m].effect)) ==> !Names(sp, rules[m], action)
  }

  /** The keys of a table are the actions granted with an effect, each with the last rule that grants it. */
  ghost predicate Holds(sp: Spelling, rules: seq<Rule>, table: map<string, Rule>, effect: string -> bool) {
    && (forall a :: a in table <==> exists e :: effect(e) && Granted(sp, rules, e, a))
    && (forall a :: a in table ==> exists k :: LastNaming(sp, rules, effect, a, k) && table[a] == rules[k])
  }

  const IsAllow: string -> bool := e => e == ALLOW
  const IsProhibit: string -> bool := e => e == PROHIBIT
  const IsOther: string -> bool := e => e != ALLOW && e != PROHIBIT

  ghost predicate ProfileOf(sp: Spelling, rules: seq<Rule>, p: Profile) {
    && Holds(sp, rules, p.allowed, IsAllow) && Holds(sp, rules, p.prohibited, IsProhibit)
    && Holds(sp, rules, p.other, IsOther)
  }

  /** The granted pairs after i rules and the first j actions of the next one. */
  ghost predicate GrantedSoFar(sp: Spelling, rules: seq<Rule>, i: nat, j: nat, effect: string, action: string)
    requires i <= |rules| && (i == |rules| ==> j == 0) && (i < |rules| ==> j <= |rules[i].actions|)
  {
    && action != ""
    && exists k, l ::
         && 0 <= k < |rules| && 0 <= l < |rules[k].actions| && (k < i || (k == i && l < j))
         && sp.effect(rules[k].effect) == effect && sp.token(rules[k].actions[l]) == action
  }

  /** The k-th rule has such an effect, and what was walked of it names the action. */
  ghost predicate NamedSoFar(sp: Spelling, rules: seq<Rule>, i: nat, j: nat, effect: string -> bool, a: string, k: int)
    requires i <= |rules| && (i == |rules| ==> j == 0) && (i < |rules| ==> j <= |rules[i].actions|)
  {
    && 0 <= k < |rules| && a != "" && effect(sp.effect(rules[k].effect))
    && exists l :: 0 <= l < |rules[k].actions| && (k < i || (k == i && l < j)) && sp.token(rules[k].actions[l]) == a
  }

  ghost predicate LastSoFar(sp: Spelling, rules: seq<Rule>, i: nat, j: nat, effect: string -> bool, a: string, k: int)
    requires i <= |rules| && (i == |rules| ==> j == 0) && (i < |rules| ==> j <= |rules[i].actions|)
  {
    && NamedSoFar(sp, rules, i, j, effect, a, k)
    && forall m :: k < m ==> !NamedSoFar(sp, rules, i, j, effect, a, m)
  }

  ghost predicate HoldsSoFar(sp: Spelling, rules: seq<Rule>, i: nat, j: nat, table: map<string, Rule>,
                             effect: string -> bool)
    requires i <= |rules| && (i == |rules| ==> j == 0) && (i < |rules| ==> j <= |rules[i].actions|)
  {
    && (forall a :: a in table <==> exists e :: effect(e) && GrantedSoFar(sp, rules, i, j, e, a))
    && (forall a :: a in table ==> exists k :: LastSoFar(sp, rules, i, j, effect, a, k) && table[a] == rules[k])
  }

  lemma NamedMore(sp: Spelling, rules: seq<Rule>, i: nat, j: nat, effect: string -> bool, a: string, k: int)
    requires i < |rules| && j < |rules[i].actions|
    ensures NamedSoFar(sp, rules, i, j + 1, effect, a, k)
            <==> || NamedSoFar(sp, rules, i, j, effect, a, k)
                 || (&& k == i && a != "" && a == sp.token(rules[i].actions[j])
                     && effect(sp.effect(rules[i].effect)))
  {
  }

  lemma {:induction false} LastStep(sp: Spelling, rules: seq<Rule>, i: nat, j: nat, effect: string -> bool, a: string,
                                    k: int)
    requires i < |rules| && j < |rules[i].actions| && LastSoFar(sp, rules, i, j, effect, a, k)
    requires !(a == sp.token(rules[i].actions[j]) && effect(sp.effect(rules[i].effect)))
    ensures LastSoFar(sp, rules, i, j + 1, effect, a, k)
  {
    NamedMore(sp, rules, i, j, effect, a, k);
    var next := j + 1;
    forall m | k < m ensures !NamedSoFar(sp, rules, i, next, effect, a, m) { NamedMore(sp, rules, i, j, effect, a, m); }
  }

  lemma {:induction false} NewLast(sp: Spelling, rules: seq<Rule>, i: nat, j: nat, effect: string -> bool, a: string)
    requires i < |rules| && j < |rules[i].actions| && a != ""
    requires a == sp.token(rules[i].actions[j]) && effect(sp.effect(rules[i].effect))
    ensures LastSoFar(sp, rules, i, j + 1, effect, a, i)
  {
    NamedMore(sp, rules, i, j, effect, a, i);
  }

  lemma {:induction false} LastAtEnd(sp: Spelling, rules: seq<Rule>, i: nat, effect: string -> bool, a: string, k: int)
    requires i < |rules| && LastSoFar(sp, rules, i, |rules[i].actions|, effect, a, k)
    ensures LastSoFar(sp, rules, i + 1, 0, effect, a, k)
  {
    NamedAtEnd(sp, rules, i, effect, a, k);
    var next := i + 1;
    forall m | k < m ensures !NamedSoFar(sp, rules, next, 0, effect, a, m) { NamedAtEnd(sp, rules, i, effect, a, m); }
  }

  lemma NamedAtEnd(sp: Spelling, rules: seq<Rule>, i: nat, effect: string -> bool, a: string, k: int)
    requires i < |rules|
    ensures NamedSoFar(sp, rules, i, |rules[i].actions|, effect, a, k)
            <==> NamedSoFar(sp, rules, i + 1, 0, effect, a, k)
  {
  }

  lemma GrantedAtEnd(sp: Spelling, rules: seq<Rule>, i: nat, e: string, a: string)
    requires i < |rules|
    ensures GrantedSoFar(sp, rules, i, |rules[i].actions|, e, a) <==> GrantedSoFar(sp, rules, i + 1, 0, e, a)
  {
  }

  lemma OneMore(sp: Spelling, rules: seq<Rule>, i: nat, j: nat, e: string, a: string)
    requires i < |rules| && j < |rules[i].actions|
    ensures GrantedSoFar(sp, rules, i, j + 1, e, a)
            <==> GrantedSoFar(sp, rules, i, j, e, a)
                 || (a != "" && a == sp.token(rules[i].actions[j]) && e == sp.effect(rules[i].effect))
  {
  }

  lemma {:induction false} TableStep(sp: Spelling, rules: seq<Rule>, i: nat, j: nat, table: map<string, Rule>,
                                     effect: string -> bool)
    requires i < |rules| && j < |rules[i].actions| && HoldsSoFar(sp, rules, i, j, table, effect)
    ensures var t := sp.token(rules[i].actions[j]);
            var next := if t != "" && effect(sp.effect(rules[i].effect)) then table[t := rules[i]] else table;
            HoldsSoFar(sp, rules, i, j + 1, next, effect)
  {
    var t, eff := sp.token(rules[i].actions[j]), sp.effect(rules[i].effect);
    var next := if t != "" && effect(eff) then table[t := rules[i]] else table;
    forall a ensures a in next <==> exists e :: effect(e) && GrantedSoFar(sp, rules, i, j + 1, e, a) {
      forall e ensures GrantedSoFar(sp, rules, i, j + 1, e, a)
                       <==> GrantedSoFar(sp, rules, i, j, e, a) || (a != "" && a == t && e == eff) {
        OneMore(sp, rules, i, j, e, a);
      }
      if a == t && t != "" && effect(eff) { assert GrantedSoFar(sp, rules, i, j + 1, eff, a); }
    }
    forall a | a in next ensures exists k :: LastSoFar(sp, rules, i, j + 1, effect, a, k) && next[a] == rules[k] {
      if a == t && t != "" && effect(eff) {
        NewLast(sp, rules, i, j, effect, a);
      } else {
        var k :| LastSoFar(sp, rules, i, j, effect, a, k) && table[a] == rules[k];
        LastStep(sp, rules, i, j, effect, a, k);
      }
    }
  }

  lemma {:induction false} NextRule(sp: Spelling, rules: seq<Rule>, i: nat, table: map<string, Rule>,
                                    effect: string -> bool)
    requires i < |rules| && HoldsSoFar(sp, rules, i, |rules[i].actions|, table, effect)
    ensures HoldsSoFar(sp, rules, i + 1, 0, table, effect)
  {
    forall e, a ensures GrantedSoFar(sp, rules, i, |rules[i].actions|, e, a)
                        <==> GrantedSoFar(sp, rules, i + 1, 0, e, a) {
      GrantedAtEnd(sp, rules, i, e, a);
    }
    forall a | a in table ensures exists k :: LastSoFar(sp, rules, i + 1, 0, effect, a, k) && table[a] == rules[k] {
      var k :| LastSoFar(sp, rules, i, |rules[i].actions|, effect, a, k) && table[a] == rules[k];
      LastAtEnd(sp, rules, i, effect, a, k);
    }
  }

  lemma NamedInAll(sp: Spelling, rules: seq<Rule>, effect: string -> bool, a: string, k: nat)
    requires k < |rules| && a != "" && effect(sp.effect(rules[k].effect))
    ensures NamedSoFar(sp, rules, |rules|, 0, effect, a, k) <==> Names(sp, rules[k], a)
  {
  }

  lemma {:induction false} AllRules(sp: Spelling, rules: seq<Rule>, table: map<string, Rule>, effect: string -> bool)
    requires HoldsSoFar(sp, rules, |rules|, 0, table, effect)
    ensures Holds(sp, rules, table, effect)
  {
    forall a | a in table ensures exists k :: LastNaming(sp, rules, effect, a, k) && table[a] == rules[k] {
      var k :| LastSoFar(sp, rules, |rules|, 0, effect, a, k) && table[a] == rules[k];
      forall m | k < m < |rules| && effect(sp.effect(rules[m].effect)) ensures !Names(sp, rules[m], a) {
        NamedInAll(sp, rules, effect, a, m);
      }
      assert LastNaming(sp, rules, effect, a, k);
    }
  }

  /** The three tables filled by one walk over rules and actions. */
  method InstrumentRightsProfile(sp: Spelling, rules: seq<Rule>) returns (p: Profile)
    ensures ProfileOf(sp, rules, p)
  {
    var allowed, prohibited, other: map<string, Rule> := map[], map[], map[];
    for i := 0 to |rules|
      invariant HoldsSoFar(sp, rules, i, 0, allowed, IsAllow)
      invariant HoldsSoFar(sp, rules, i, 0, prohibited, IsProhibit)
      invariant HoldsSoFar(sp, rules, i, 0, other, IsOther)
    {
      var rule := rules[i];
      var effect := sp.effect(rule.effect);
      for j := 0 to |rule.actions|
        invariant HoldsSoFar(sp, rules, i, j, allowed, IsAllow)
        invariant HoldsSoFar(sp, rules, i, j, prohibited, IsProhibit)
        invariant HoldsSoFar(sp, rules, i, j, other, IsOther)
      {
        var token := sp.token(rule.actions[j]);
        TableStep(sp, rules, i, j, allowed, IsAllow);
        TableStep(sp, rules, i, j, prohibited, IsProhibit);
        TableStep(sp, rules, i, j, other, IsOther);
        if token != "" {
          if effect == ALLOW {
            allowed := allowed[token := rule];
          } else if effect == PROHIBIT {
            prohibited := prohibited[token := rule];
          } else {
            other := other[token := rule];
          }
        }
      }
      NextRule(sp, rules, i, allowed, IsAllow);
      NextRule(sp, rules, i, prohibited, IsProhibit);
      NextRule(sp, rules, i, other, IsOther);
    }
    AllRules(sp, rules, allowed, IsAllow);
    AllRules(sp, rules, prohibited, IsProhibit);
    AllRules(sp, rules, other, IsOther);
    p := Profile(allowed, prohibited, other);
  }

  // ----- order and grouping of rules -----

  ghost predicate SameGrants(sp: Spelling, r1: seq<Rule>, r2: seq<Rule>) {
    forall e, a :: Granted(sp, r1, e, a) <==> Granted(sp, r2, e, a)
  }

  /** Rules that grant the same pairs give the same three action sets. */
  lemma ProfileFromGrants(sp: Spelling, r1: seq<Rule>, r2: seq<Rule>, p1: Profile, p2: Profile)
    requires SameGrants(sp, r1, r2) && ProfileOf(sp, r1, p1) && ProfileOf(sp, r2, p2)
    ensures p1.allowed.Keys == p2.allowed.Keys && p1.prohibited.Keys == p2.prohibited.Keys
    ensures p1.other.Keys == p2.other.Keys
  {
  }

  lemma {:induction false} PermutationGrants(sp: Spelling, r1: seq<Rule>, r2: seq<Rule>)
    requires multiset(r1) == multiset(r2)
    ensures SameGrants(sp, r1, r2)
  {
    forall e, a ensures Granted(sp, r1, e, a) <==> Granted(sp, r2, e, a) {
      if Granted(sp, r1, e, a) { GrantMoves(sp, r1, r2, e, a); }
      if Granted(sp, r2, e, a) { GrantMoves(sp, r2, r1, e, a); }
    }
  }

  lemma {:induction false} GrantMoves(sp: Spelling, r1: seq<Rule>, r2: seq<Rule>, e: string, a: string)
    requires multiset(r1) == multiset(r2) && Granted(sp, r1, e, a)
    ensures Granted(sp, r2, e, a)
  {
    var i, j :| 0 <= i < |r1| && 0 <= j < |r1[i].actions|
      && sp.effect(r1[i].effect) == e && sp.token(r1[i].actions[j]) == a;
    assert r1[i] in multiset(r2);
    var k :| 0 <= k < |r2| && r2[k] == r1[i];
  }

  /** One rule may be written as two with its actions divided between them. */
  lemma {:induction false} SplitGrants(sp: Spelling, before: seq<Rule>, rule: Rule, x: seq<string>, y: seq<string>,
                                       after: seq<Rule>)
    requires rule.actions == x + y
    ensures SameGrants(sp, before + [rule] + after, before + [rule.(actions := x), rule.(actions := y)] + after)
  {
    var whole, split := before + [rule] + after, before + [rule.(actions := x), rule.(actions := y)] + after;
    var n := |before|;
    forall e, a ensures Granted(sp, whole, e, a) <==> Granted(sp, split, e, a) {
      if Granted(sp, whole, e, a) {
        var i, j :| 0 <= i < |whole| && 0 <= j < |whole[i].actions|
          && sp.effect(whole[i].effect) == e && sp.token(whole[i].actions[j]) == a;
        if i < n { assert split[i] == whole[i]; }
        else if i > n { assert split[i + 1] == whole[i]; }
        else if j < |x| { assert split[n].actions[j] == whole[n].actions[j]; }
        else { assert split[n + 1].actions[j - |x|] == whole[n].actions[j]; }
      }
      if Granted(sp, split, e, a) {
        var i, j :| 0 <= i < |split| && 0 <= j < |split[i].actions|
          && sp.effect(split[i].effect) == e && sp.token(split[i].actions[j]) == a;
        if i < n { assert whole[i] == split[i]; }
        else if i > n + 1 { assert whole[i - 1] == split[i]; }
        else if i == n { assert whole[n].actions[j] == split[n].actions[j]; }
        else { assert whole[n].actions[|x| + j] == split[n + 1].actions[j]; }
      }
    }
  }

  // ----- issuing an instrument -----

  datatype Options = Options(actions: seq<string>, instrumentClass: string, supply: int, fungibility: string,
                             divisibility: int, transferable: bool)

  datatype IssueError = NoAction | Prohibited | NotGranted | NotExactlyTransfer | NoFormulaSet | NotOneUnit

  function Requested(sp: Spelling, actions: seq<string>): set<string> {
    set i | 0 <= i < |actions| && sp.token(actions[i]) != "" :: sp.token(actions[i])
  }

  const TRANSFER := "TRANSFER"
  const CONTROL := "CONTROL"

  predicate OneUnit(o: Options) {
    o.supply == 1 && o.fungibility == "NON-FUNGIBLE" && o.divisibility == 0 && !o.transferable
  }

  /** The request names the action. */
  ghost predicate Asks(sp: Spelling, o: Options, action: string) {
    action != "" && exists i :: 0 <= i < |o.actions| && sp.token(o.actions[i]) == action
  }

  /** At least one action, each allowed by some rule and prohibited by none. */
  ghost predicate Covered(sp: Spelling, rules: seq<Rule>, o: Options) {
    && (exists a :: Asks(sp, o, a))
    && forall a :: Asks(sp, o, a) ==> Granted(sp, rules, "ALLOW", a) && !Granted(sp, rules, "PROHIBIT", a)
  }

  ghost predicate WholeAsset(sp: Spelling, o: Options) { sp.effect(o.instrumentClass) == "ASSET_TRANSFER" }

  ghost predicate OnlyTransfer(sp: Spelling, o: Options) { forall a :: Asks(sp, o, a) ==> a == "TRANSFER" }

  /** One unit that cannot be divided, exchanged for another or sold on. */
  ghost predicate PlainUnit(sp: Spelling, o: Options) {
    o.supply == 1 && sp.effect(o.fungibility) == "NON-FUNGIBLE" && o.divisibility == 0 && !o.transferable
  }

  ghost predicate AsksNothing(sp: Spelling, o: Options) { forall a :: !Asks(sp, o, a) }

  ghost predicate AsksProhibited(sp: Spelling, rules: seq<Rule>, o: Options) {
    exists a :: Asks(sp, o, a) && Granted(sp, rules, "PROHIBIT", a)
  }

  lemma {:induction false} RequestedIs(sp: Spelling, o: Options)
    ensures forall a :: a in Requested(sp, o.actions) <==> Asks(sp, o, a)
    ensures Requested(sp, o.actions) == {} <==> AsksNothing(sp, o)
    ensures !AsksNothing(sp, o) ==> (Requested(sp, o.actions) == {TRANSFER} <==> OnlyTransfer(sp, o))
  {
    var requested := Requested(sp, o.actions);
    assert forall a :: a in requested <==> Asks(sp, o, a);
    if !AsksNothing(sp, o) {
      var a :| Asks(sp, o, a);
      assert a in requested;
    }
    if requested != {} {
      var a :| a in requested;
      assert Asks(sp, o, a);
    }
  }

  /** The guards over the profile's sets are those over the rules. */
  lemma {:induction false} GuardsAre(sp: Spelling, rules: seq<Rule>, o: Options, p: Profile)
    requires ProfileOf(sp, rules, p)
    ensures var requested := Requested(sp, o.actions);
            && (requested * p.prohibited.Keys != {} <==> AsksProhibited(sp, rules, o))
            && (requested <= p.allowed.Keys <==> forall a :: Asks(sp, o, a) ==> Granted(sp, rules, "ALLOW", a))
  {
    RequestedIs(sp, o);
    ProfileSets(sp, rules, p);
    var requested := Requested(sp, o.actions);
    if AsksProhibited(sp, rules, o) {
      var a :| Asks(sp, o, a) && Granted(sp, rules, "PROHIBIT", a);
      assert a in requested * p.prohibited.Keys;
    }
    if requested * p.prohibited.Keys != {} {
      var a :| a in requested * p.prohibited.Keys;
      assert Asks(sp, o, a) && Granted(sp, rules, "PROHIBIT", a);
    }
  }

  lemma CoveredIs(sp: Spelling, rules: seq<Rule>, o: Options)
    ensures Covered(sp, rules, o)
            <==> && !AsksNothing(sp, o) && !AsksProhibited(sp, rules, o)
                 && forall a :: Asks(sp, o, a) ==> Granted(sp, rules, "ALLOW", a)
  {
  }

  /** Ok carries the actions handed to the market registry. Class and fungibility are compared in upper case. */
  method CreateInstrument(sp: Spelling, rules: seq<Rule>, o: Options, formulaVerified: bool)
    returns (r: Result<seq<string>, IssueError>)
    ensures r.Ok? <==> MayIssue(sp, rules, o, formulaVerified)
    ensures r.Ok? ==> r.value == o.actions
    ensures r == Err(NoAction) <==> AsksNothing(sp, o)
    ensures r == Err(Prohibited) <==> AsksProhibited(sp, rules, o)
    ensures r == Err(NotExactlyTransfer) <==> Covered(sp, rules, o) && WholeAsset(sp, o) && !OnlyTransfer(sp, o)
    ensures r == Err(NoFormulaSet)
            <==> Covered(sp, rules, o) && WholeAsset(sp, o) && OnlyTransfer(sp, o) && !formulaVerified
    ensures r == Err(NotOneUnit)
            <==> && Covered(sp, rules, o) && WholeAsset(sp, o) && OnlyTransfer(sp, o) && formulaVerified
                 && !PlainUnit(sp, o)
  {
    var profile := InstrumentRightsProfile(sp, rules);
    RequestedIs(sp, o);
    GuardsAre(sp, rules, o, profile);
    CoveredIs(sp, rules, o);
    var requested := Requested(sp, o.actions);
    if requested == {} { return Err(NoAction); }
    if requested * profile.prohibited.Keys != {} { return Err(Prohibited); }
    if !(requested <= profile.allowed.Keys) { return Err(NotGranted); }
    if sp.effect(o.instrumentClass) == "ASSET_TRANSFER" {
      if requested != {TRANSFER} { return Err(NotExactlyTransfer); }
      if !formulaVerified { return Err(NoFormulaSet); }
      if !OneUnit(o.(fungibility := sp.effect(o.fungibility))) { return Err(NotOneUnit); }
    }
    r := Ok(o.actions);
  }

  lemma ProfileSets(sp: Spelling, rules: seq<Rule>, p: Profile)
    requires ProfileOf(sp, rules, p)
    ensures forall a :: a in p.allowed.Keys <==> Granted(sp, rules, ALLOW, a)
    ensures forall a :: a in p.prohibited.Keys <==> Granted(sp, rules, PROHIBIT, a)
  {
  }

  /** What may be issued; a whole-asset sale is one plain TRANSFER unit over a complete formula set. */
  ghost predicate MayIssue(sp: Spelling, rules: seq<Rule>, o: Options, formulaVerified: bool) {
    && Covered(sp, rules, o)
    && (WholeAsset(sp, o) ==> OnlyTransfer(sp, o) && formulaVerified && PlainUnit(sp, o))
  }

  /** Whether a request passes depends on the granted pairs alone, not on the order or grouping of rules. */
  lemma IssueFromGrants(sp: Spelling, r1: seq<Rule>, r2: seq<Rule>, o: Options, formulaVerified: bool)
    requires SameGrants(sp, r1, r2)
    ensures MayIssue(sp, r1, o, formulaVerified) <==> MayIssue(sp, r2, o, formulaVerified)
  {
  }

  /** One prohibition anywhere in the passport closes an action, however often it is allowed. */
  lemma {:induction false} ProhibitionWins(sp: Spelling, rules: seq<Rule>, extra: Rule, o: Options,
                                           formulaVerified: bool, k: nat, j: nat)
    requires k <= |rules| && sp.effect(extra.effect) == PROHIBIT && j < |extra.actions|
    requires Asks(sp, o, sp.token(extra.actions[j]))
    ensures !MayIssue(sp, rules[..k] + [extra] + rules[k..], o, formulaVerified)
  {
    var all := rules[..k] + [extra] + rules[k..];
    assert all[k] == extra;
    assert Granted(sp, all, PROHIBIT, sp.token(extra.actions[j]));
  }
}
