/** The catalog: pools, node assignments, groups, users and quota rules, with
    the lookups the scheduler makes. Values of these types are snapshots; the
    editable catalog is the class in CatalogEdits. */
module Catalogs {
  import opened Wrappers
  import opened Counting

  datatype Runtime = Process | Container | Unset | OtherRuntime(text: string)

  datatype Pool = Pool(
    name: string,
    description: string,
    runtime: Runtime,
    taskDriver: string,
    image: string,
    command: seq<string>,
    runnerCommand: seq<string>,
    dockerNetwork: string,
    constraints: map<string, string>,
    runnerUrl: string,
    cacheDir: string,
    hostVolume: string,
    spans: seq<string>)
  {
    predicate IsVirtual() {
      |spans| > 0
    }

    /** The concrete pools whose nodes can run this pool's suites. */
    function NodePools(): seq<string> {
      if IsVirtual() then spans else [name]
    }

    function Driver(): string {
      if taskDriver != "" then taskDriver
      else if runtime == Container then "docker"
      else "exec"
    }
  }

  // A node with pool "" is unassigned.
  datatype Node = Node(name: string, pool: string)

  datatype Group = Group(name: string, description: string)

  datatype User = User(name: string, displayName: string, email: string, groups: seq<string>)

  datatype SubjectKind = OneUser | OneGroup | Everyone | OtherSubject(text: string)

  datatype ScopeKind = OnNode | InPool | Anywhere | OtherScope(text: string)

  datatype Scope = Scope(kind: ScopeKind, target: string)

  const EVERYWHERE := Scope(Anywhere, "")

  datatype QuotaRule = QuotaRule(
    subject: SubjectKind,
    name: string,
    together: bool,
    scope: ScopeKind,
    target: string,
    maxSlots: int,
    note: string)
  {
    function ScopeOf(): Scope {
      Scope(scope, target)
    }

    /** Does the rule concern a user who is in these groups? */
    predicate Covers(user: string, groups: seq<string>) {
      match subject
      case OneUser => name == user
      case OneGroup => name in groups
      case Everyone => true
      case OtherSubject(_) => true
    }

    /** The kinds are known, and names are present exactly where they belong. */
    predicate ValidShape() {
      && (match subject
          case OneUser => name != "" && !together
          case OneGroup => name != ""
          case Everyone => name == ""
          case OtherSubject(_) => false)
      && (match scope
          case OnNode => target != ""
          case InPool => target != ""
          case Anywhere => target == ""
          case OtherScope(_) => false)
      && 0 <= maxSlots
    }
  }

  datatype Catalog = Catalog(
    pools: seq<Pool>,
    nodes: seq<Node>,
    groups: seq<Group>,
    users: seq<User>,
    quotas: seq<QuotaRule>)
  {
    function Pool(name: string): Option<Pool> {
      FindPool(pools, name)
    }

    /** The pool a node is assigned to, "" when it is not. */
    function NodePool(name: string): string {
      FindNodePool(nodes, name)
    }

    /** The groups a user belongs to; an unknown user is in none. */
    function UserGroups(user: string): seq<string> {
      FindUserGroups(users, user)
    }

    function Members(group: string): seq<string> {
      MembersOf(users, group)
    }
  }

  const EMPTY_CATALOG := Catalog([], [], [], [], [])

  function FindPool(pools: seq<Pool>, name: string): (r: Option<Pool>)
    ensures r.Some? ==> r.value in pools && r.value.name == name
    ensures r.None? <==> forall p <- pools :: p.name != name
  {
    if pools == [] then None
    else if pools[0].name == name then Some(pools[0])
    else FindPool(pools[1..], name)
  }

  function FindNodePool(nodes: seq<Node>, name: string): (r: string)
    ensures r != "" ==> Node(name, r) in nodes
  {
    if nodes == [] then ""
    else if nodes[0].name == name then nodes[0].pool
    else FindNodePool(nodes[1..], name)
  }

  /** The first listing of a node counts; one that is not listed is in no pool. */
  lemma {:induction false} FirstListingCounts(nodes: seq<Node>, name: string, i: nat)
    requires i <= |nodes| && forall j | 0 <= j < i :: nodes[j].name != name
    ensures i == |nodes| ==> FindNodePool(nodes, name) == ""
    ensures i < |nodes| && nodes[i].name == name ==> FindNodePool(nodes, name) == nodes[i].pool
  {
    if i > 0 {
      FirstListingCounts(nodes[1..], name, i - 1);
    }
  }

  function FindUserGroups(users: seq<User>, user: string): seq<string> {
    if users == [] then []
    else if users[0].name == user then users[0].groups
    else FindUserGroups(users[1..], user)
  }

  function MembersOf(users: seq<User>, group: string): seq<string> {
    if users == [] then []
    else (if group in users[0].groups then [users[0].name] else []) + MembersOf(users[1..], group)
  }

  function NameOfPool(p: Pool): string { p.name }

  function NameOfNode(n: Node): string { n.name }

  function NameOfGroup(g: Group): string { g.name }

  function NameOfUser(u: User): string { u.name }

  /** Looking a user's groups up and listing a group's members agree, and no
      member is listed twice. */
  lemma {:induction false} MembersAreTheUsersInTheGroup(users: seq<User>, group: string)
    requires UniqueBy(users, NameOfUser)
    ensures forall u :: u in MembersOf(users, group) <==> group in FindUserGroups(users, u)
    ensures forall u <- MembersOf(users, group) :: exists i :: 0 <= i < |users| && users[i].name == u
    ensures forall i, j | 0 <= i < j < |MembersOf(users, group)| ::
              MembersOf(users, group)[i] != MembersOf(users, group)[j]
  {
    if users != [] {
      var rest := users[1..];
      MembersAreTheUsersInTheGroup(rest, group);
      var name := users[0].name;
      assert name !in MembersOf(rest, group);
      forall u <- MembersOf(users, group)
        ensures exists i :: 0 <= i < |users| && users[i].name == u
      {
        if u == name {
          assert users[0].name == u;
        } else {
          var i :| 0 <= i < |rest| && rest[i].name == u;
          assert users[i + 1].name == u;
        }
      }
    }
  }

  /** Every rule is well shaped: what validation guarantees of a live catalog. */
  ghost predicate ValidRules(cat: Catalog) {
    forall r <- cat.quotas :: r.ValidShape()
  }
}
