/** Resolution of quota rules: which rules govern a user in a scope. */
module Quotas {
  import opened Wrappers
  import opened Catalogs

  /** A per-user rule that concerns this user in this scope. */
  predicate LimitsEach(r: QuotaRule, user: string, groups: seq<string>, scope: Scope) {
    !r.together && r.ScopeOf() == scope && r.Covers(user, groups)
  }

  /** An aggregate rule that this user's runs count towards in this scope. */
  predicate LimitsTogether(r: QuotaRule, user: string, groups: seq<string>, scope: Scope) {
    r.together && r.ScopeOf() == scope && r.Covers(user, groups)
  }

  // The best rule seen so far of each subject kind.
  datatype Governing = Governing(own: Option<QuotaRule>, best: Option<QuotaRule>, global: Option<QuotaRule>)
  {
    function Weigh(r: QuotaRule): Governing {
      match r.subject
      case OneUser => this.(own := Some(r))
      case OneGroup => if best.None? || r.maxSlots > best.value.maxSlots then this.(best := Some(r)) else this
      case _ => this.(global := Some(r))
    }

    function MostSpecific(): Option<QuotaRule> {
      if own.Some? then own else if best.Some? then best else global
    }
  }

  function GoverningRules(rules: seq<QuotaRule>, user: string, groups: seq<string>, scope: Scope): Governing {
    if rules == [] then Governing(None, None, None)
    else
      var g := GoverningRules(rules[..|rules| - 1], user, groups, scope);
      var r := rules[|rules| - 1];
      if LimitsEach(r, user, groups, scope) then g.Weigh(r) else g
  }

  /** The per-user rule that governs a user in a scope. */
  function UserCap(cat: Catalog, user: string, scope: Scope): Option<QuotaRule> {
    GoverningRules(cat.quotas, user, cat.UserGroups(user), scope).MostSpecific()
  }

  function TogetherIn(rules: seq<QuotaRule>, user: string, groups: seq<string>, scope: Scope): (out: seq<QuotaRule>)
    ensures forall r :: r in out <==> r in rules && LimitsTogether(r, user, groups, scope)
  {
    if rules == [] then []
    else
      var out := TogetherIn(rules[..|rules| - 1], user, groups, scope);
      var r := rules[|rules| - 1];
      assert rules == rules[..|rules| - 1] + [r];
      if LimitsTogether(r, user, groups, scope) then out + [r] else out
  }

  /** Every aggregate rule that applies to a user in a scope. */
  function TogetherRules(cat: Catalog, user: string, scope: Scope): seq<QuotaRule> {
    TogetherIn(cat.quotas, user, cat.UserGroups(user), scope)
  }

  /** The user's own rule outranks those of their groups, which outrank the rule for everyone. */
  function Specificity(s: SubjectKind): nat {
    match s
    case OneUser => 2
    case OneGroup => 1
    case _ => 0
  }

  /** No rule concerning the user outranks r; among group rules none allows more. */
  ghost predicate Governs(rules: seq<QuotaRule>, user: string, groups: seq<string>, scope: Scope, r: QuotaRule) {
    && r in rules
    && LimitsEach(r, user, groups, scope)
    && forall s <- rules | LimitsEach(s, user, groups, scope) ::
         && Specificity(s.subject) <= Specificity(r.subject)
         && (s.subject.OneGroup? && r.subject.OneGroup? ==> s.maxSlots <= r.maxSlots)
  }

  /** g holds, of each subject kind, a rule from among those concerning the user
      in the scope, and a most permissive one for groups. */
  ghost predicate BestSeen(g: Governing, rules: seq<QuotaRule>, user: string, groups: seq<string>, scope: Scope) {
    && (g.own.Some? ==> g.own.value in rules && LimitsEach(g.own.value, user, groups, scope) && g.own.value.subject.OneUser?)
    && (g.best.Some? ==> g.best.value in rules && LimitsEach(g.best.value, user, groups, scope) && g.best.value.subject.OneGroup?)
    && (g.global.Some? ==> g.global.value in rules && LimitsEach(g.global.value, user, groups, scope)
                           && Specificity(g.global.value.subject) == 0)
    && forall s <- rules | LimitsEach(s, user, groups, scope) ::
         && (s.subject.OneUser? ==> g.own.Some?)
         && (s.subject.OneGroup? ==> g.best.Some? && s.maxSlots <= g.best.value.maxSlots)
         && (Specificity(s.subject) == 0 ==> g.global.Some?)
  }

  lemma {:induction false} GoverningRulesAreBest(rules: seq<QuotaRule>, user: string, groups: seq<string>, scope: Scope)
    ensures BestSeen(GoverningRules(rules, user, groups, scope), rules, user, groups, scope)
  {
    if rules != [] {
      var rest, r := rules[..|rules| - 1], rules[|rules| - 1];
      assert rules == rest + [r];
      GoverningRulesAreBest(rest, user, groups, scope);
      WeighKeepsBest(GoverningRules(rest, user, groups, scope), rest, r, user, groups, scope);
    }
  }

  lemma WeighKeepsBest(g: Governing, rest: seq<QuotaRule>, r: QuotaRule, user: string, groups: seq<string>, scope: Scope)
    requires BestSeen(g, rest, user, groups, scope)
    ensures BestSeen(if LimitsEach(r, user, groups, scope) then g.Weigh(r) else g, rest + [r], user, groups, scope)
  {
  }

  /** UserCap returns a most specific, most permissive rule, and nothing exactly
      when no per-user rule concerns the user there. */
  lemma UserCapIsMostSpecific(cat: Catalog, user: string, scope: Scope)
    ensures UserCap(cat, user, scope).None? <==>
            forall r <- cat.quotas :: !LimitsEach(r, user, cat.UserGroups(user), scope)
    ensures UserCap(cat, user, scope).Some? ==>
              Governs(cat.quotas, user, cat.UserGroups(user), scope, UserCap(cat, user, scope).value)
  {
    GoverningRulesAreBest(cat.quotas, user, cat.UserGroups(user), scope);
  }

  /** The user's own rule for a scope; failing that, the most permissive of
      their groups'; failing that, the one for everyone. */
  lemma CapMeans(cat: Catalog, user: string, scope: Scope)
    requires ValidRules(cat)
    ensures UserCap(cat, user, scope).Some? ==>
      var cap := UserCap(cat, user, scope).value;
      && cap in cat.quotas && !cap.together && cap.scope == scope.kind && cap.target == scope.target
      && (match cap.subject
          case OneUser => cap.name == user
          case OneGroup => cap.name in cat.UserGroups(user)
          case _ => true)
      && forall r <- cat.quotas | !r.together && r.scope == scope.kind && r.target == scope.target ::
           && (r.subject == OneUser && r.name == user ==> cap.subject == OneUser)
           && (r.subject == OneGroup && r.name in cat.UserGroups(user) ==>
                 cap.subject == OneUser || (cap.subject == OneGroup && r.maxSlots <= cap.maxSlots))
    ensures UserCap(cat, user, scope).None? <==>
      forall r <- cat.quotas | !r.together && r.scope == scope.kind && r.target == scope.target ::
        (r.subject == OneUser && r.name != user) || (r.subject == OneGroup && r.name !in cat.UserGroups(user))
  {
    hide UserCap;
    UserCapIsMostSpecific(cat, user, scope);
    forall r <- cat.quotas ensures r.ValidShape() {
    }
  }

  /** An aggregate rule applies in its own scope: for a group, to its members, otherwise to everyone. */
  lemma TogetherMeans(cat: Catalog, user: string, scope: Scope, r: QuotaRule)
    requires ValidRules(cat)
    ensures r in TogetherRules(cat, user, scope) <==>
      && r in cat.quotas && r.together && r.scope == scope.kind && r.target == scope.target
      && (r.subject == OneGroup ==> r.name in cat.UserGroups(user))
  {
    assert r in cat.quotas ==> r.ValidShape();
  }

  /** Any rule that governs allows exactly as much as the one UserCap returns,
      when a subject has at most one per-user rule in a scope. */
  lemma UserCapLimitIsUnique(cat: Catalog, user: string, scope: Scope, r: QuotaRule)
    requires Governs(cat.quotas, user, cat.UserGroups(user), scope, r)
    requires forall s <- cat.quotas, t <- cat.quotas |
               s.subject == t.subject && s.name == t.name && s.together == t.together && s.ScopeOf() == t.ScopeOf() ::
               s == t
    requires ValidRules(cat)
    ensures UserCap(cat, user, scope).Some?
    ensures UserCap(cat, user, scope).value.maxSlots == r.maxSlots
  {
    UserCapIsMostSpecific(cat, user, scope);
    var c := UserCap(cat, user, scope).value;
    assert Specificity(c.subject) == Specificity(r.subject);
    assert c.ValidShape() && r.ValidShape();
  }

  method FindUserCap(cat: Catalog, user: string, scope: Scope) returns (cap: Option<QuotaRule>)
    ensures cap == UserCap(cat, user, scope)
  {
    var groups := cat.UserGroups(user);
    var own: Option<QuotaRule>, best: Option<QuotaRule>, global: Option<QuotaRule> := None, None, None;
    for i := 0 to |cat.quotas|
      invariant Governing(own, best, global) == GoverningRules(cat.quotas[..i], user, groups, scope)
    {
      var r := cat.quotas[i];
      assert cat.quotas[..i + 1][..i] == cat.quotas[..i];
      if r.together || r.ScopeOf() != scope || !r.Covers(user, groups) {
        continue;
      }
      match r.subject {
        case OneUser => own := Some(r);
        case OneGroup =>
          if best.None? || r.maxSlots > best.value.maxSlots {
            best := Some(r);
          }
        case _ => global := Some(r);
      }
    }
    assert cat.quotas[..|cat.quotas|] == cat.quotas;
    if own.Some? {
      return own;
    }
    if best.Some? {
      return best;
    }
    return global;
  }

  method FindTogetherRules(cat: Catalog, user: string, scope: Scope) returns (out: seq<QuotaRule>)
    ensures out == TogetherRules(cat, user, scope)
  {
    var groups := cat.UserGroups(user);
    out := [];
    for i := 0 to |cat.quotas|
      invariant out == TogetherIn(cat.quotas[..i], user, groups, scope)
    {
      var r := cat.quotas[i];
      assert cat.quotas[..i + 1][..i] == cat.quotas[..i];
      if r.together && r.ScopeOf() == scope && r.Covers(user, groups) {
        out := out + [r];
      }
    }
    assert cat.quotas[..|cat.quotas|] == cat.quotas;
  }
}
