/** What a ledger says about the claims charged to it, whatever their order. */
module LedgerFacts {
  import opened Counting
  import opened Catalogs
  import opened Ledgers

  function SitsOn(id: string): Claim -> bool {
    (c: Claim) => c.nodeId == id
  }

  function OfUser(user: string): Claim -> bool {
    (c: Claim) => c.user == user
  }

  function Counted(cat: Catalog, rule: QuotaRule, user: string): Claim -> bool {
    c => Sees(cat, rule, user, FlightOf(cat, c))
  }

  function FliesAs(cat: Catalog, f: Flight): Claim -> bool {
    c => FlightOf(cat, c) == f
  }

  /** A charged ledger in terms of counts over the claims. */
  lemma {:induction false} ChargedLedger(l: LedgerState, cs: seq<Claim>)
    ensures var l' := ChargeAll(l, cs);
      && l'.cat == l.cat && l'.byPool == l.byPool && l'.nodes.Keys == l.nodes.Keys
      && (forall id <- l.nodes :: l'.nodes[id] == l.nodes[id].(used := l.nodes[id].used + CountIf(cs, SitsOn(id))))
      && (forall u :: l'.HeldBy(u) == l.HeldBy(u) + CountIf(cs, OfUser(u)))
  {
    if cs != [] {
      ChargedLedger(l, cs[..|cs| - 1]);
    }
  }

  lemma {:induction false} ChargedCount(l: LedgerState, cs: seq<Claim>, rule: QuotaRule, user: string)
    ensures Count(ChargeAll(l, cs), rule, user) == Count(l, rule, user) + CountIf(cs, Counted(l.cat, rule, user))
  {
    if cs != [] {
      var rest := cs[..|cs| - 1];
      ChargedCount(l, rest, rule, user);
      ChargedLedger(l, rest);
      var m := ChargeAll(l, rest);
      CountAppend(m.inFlight, FlightOf(m.cat, cs[|cs| - 1]), SeenBy(m.cat, rule, user));
    }
  }

  lemma {:induction false} ChargedFlights(l: LedgerState, cs: seq<Claim>, f: Flight)
    ensures multiset(ChargeAll(l, cs).inFlight)[f] == multiset(l.inFlight)[f] + CountIf(cs, FliesAs(l.cat, f))
  {
    if cs != [] {
      ChargedFlights(l, cs[..|cs| - 1], f);
      ChargedLedger(l, cs[..|cs| - 1]);
    }
  }

  /** Equal but for the order of inFlight. */
  ghost predicate SameUpToOrder(a: LedgerState, b: LedgerState) {
    && a.cat == b.cat && a.nodes == b.nodes && a.byPool == b.byPool
    && (forall u :: a.HeldBy(u) == b.HeldBy(u))
    && multiset(a.inFlight) == multiset(b.inFlight)
  }

  /** The order in which claims are charged shows only in the order of inFlight. */
  lemma ChargeOrderIsImmaterial(l: LedgerState, cs: seq<Claim>, ds: seq<Claim>)
    requires multiset(cs) == multiset(ds)
    ensures SameUpToOrder(ChargeAll(l, cs), ChargeAll(l, ds))
  {
    SameNodes(l, cs, ds);
    SameHoldings(l, cs, ds);
    SameFlights(l, cs, ds);
  }

  lemma SameNodes(l: LedgerState, cs: seq<Claim>, ds: seq<Claim>)
    requires multiset(cs) == multiset(ds)
    ensures var (a, b) := (ChargeAll(l, cs), ChargeAll(l, ds));
      a.cat == b.cat && a.nodes == b.nodes && a.byPool == b.byPool
  {
    var (a, b) := (ChargeAll(l, cs), ChargeAll(l, ds));
    ChargedLedger(l, cs);
    ChargedLedger(l, ds);
    forall id <- l.nodes ensures a.nodes[id] == b.nodes[id] {
      CountPermutation(cs, ds, SitsOn(id));
    }
  }

  lemma SameHoldings(l: LedgerState, cs: seq<Claim>, ds: seq<Claim>)
    requires multiset(cs) == multiset(ds)
    ensures forall u :: ChargeAll(l, cs).HeldBy(u) == ChargeAll(l, ds).HeldBy(u)
  {
    forall u ensures ChargeAll(l, cs).HeldBy(u) == ChargeAll(l, ds).HeldBy(u) {
      ChargedLedger(l, cs);
      ChargedLedger(l, ds);
      CountPermutation(cs, ds, OfUser(u));
    }
  }

  lemma SameFlights(l: LedgerState, cs: seq<Claim>, ds: seq<Claim>)
    requires multiset(cs) == multiset(ds)
    ensures multiset(ChargeAll(l, cs).inFlight) == multiset(ChargeAll(l, ds).inFlight)
  {
    var (a, b) := (multiset(ChargeAll(l, cs).inFlight), multiset(ChargeAll(l, ds).inFlight));
    forall f ensures a[f] == b[f] {
      ChargedFlights(l, cs, f);
      ChargedFlights(l, ds, f);
      CountPermutation(cs, ds, FliesAs(l.cat, f));
    }
  }

  // -------------------------------------------------------- aggregate rules

  /** The sum over users of what a per-user rule counts for each. */
  function SumOver(l: LedgerState, each: QuotaRule, users: seq<string>): nat {
    if users == [] then 0 else Count(l, each, users[0]) + SumOver(l, each, users[1..])
  }

  function CountAmong(fs: seq<Flight>, cat: Catalog, each: QuotaRule, users: seq<string>): nat {
    if users == [] then 0 else CountIf(fs, SeenBy(cat, each, users[0])) + CountAmong(fs, cat, each, users[1..])
  }

  lemma {:induction false} SumOverIsCountAmong(l: LedgerState, each: QuotaRule, users: seq<string>)
    ensures SumOver(l, each, users) == CountAmong(l.inFlight, l.cat, each, users)
  {
    if users != [] {
      SumOverIsCountAmong(l, each, users[1..]);
    }
  }

  /** One more flight is seen for at most one of several distinct users. */
  lemma {:induction false} FlightSeenOnce(fs: seq<Flight>, f: Flight, cat: Catalog, each: QuotaRule, users: seq<string>)
    requires !each.together && Distinct(users)
    ensures CountAmong(fs + [f], cat, each, users)
         == CountAmong(fs, cat, each, users)
            + (if f.user in users && Sees(cat, each, f.user, f) then 1 else 0)
  {
    if users != [] {
      CountAppend(fs, f, SeenBy(cat, each, users[0]));
      FlightSeenOnce(fs, f, cat, each, users[1..]);
      assert users == [users[0]] + users[1..];
      assert forall i | 0 <= i < |users[1..]| :: users[1..][i] != users[0];
    }
  }

  /** What an aggregate rule on a group sees is the sum of what the same rule,
      applied to each member separately, sees of them. */
  lemma GroupCountIsTheSumOfItsMembers(l: LedgerState, rule: QuotaRule, user: string)
    requires rule.together && rule.subject.OneGroup? && UniqueBy(l.cat.users, NameOfUser)
    ensures Count(l, rule, user) == SumOver(l, rule.(together := false), l.cat.Members(rule.name))
  {
    MembersAreTheUsersInTheGroup(l.cat.users, rule.name);
    SumOverIsCountAmong(l, rule.(together := false), l.cat.Members(rule.name));
    GroupCount(l.inFlight, l.cat, rule, user);
  }

  lemma {:induction false} GroupCount(fs: seq<Flight>, cat: Catalog, rule: QuotaRule, user: string)
    requires rule.together && rule.subject.OneGroup?
    requires forall u :: u in cat.Members(rule.name) <==> rule.name in cat.UserGroups(u)
    requires Distinct(cat.Members(rule.name))
    ensures CountIf(fs, SeenBy(cat, rule, user)) == CountAmong(fs, cat, rule.(together := false), cat.Members(rule.name))
  {
    var each, members := rule.(together := false), cat.Members(rule.name);
    if fs == [] {
      NothingAmong(cat, each, members);
    } else {
      var rest, f := fs[..|fs| - 1], fs[|fs| - 1];
      assert fs == rest + [f];
      GroupCount(rest, cat, rule, user);
      FlightSeenOnce(rest, f, cat, each, members);
    }
  }

  lemma {:induction false} NothingAmong(cat: Catalog, each: QuotaRule, users: seq<string>)
    ensures CountAmong([], cat, each, users) == 0
  {
    if users != [] {
      NothingAmong(cat, each, users[1..]);
    }
  }
}
