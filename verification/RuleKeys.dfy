/** Keys of quota rules: subject[:name][/together]@scope[:target]. */
module RuleKeys {
  import opened Wrappers
  import opened Catalogs
  import opened Text

  const TOGETHER := "/together"

  function SubjectText(k: SubjectKind): string {
    match k
    case OneUser => "user"
    case OneGroup => "group"
    case Everyone => "global"
    case OtherSubject(text) => text
  }

  function SubjectOf(text: string): SubjectKind {
    if text == "user" then OneUser
    else if text == "group" then OneGroup
    else if text == "global" then Everyone
    else OtherSubject(text)
  }

  function ScopeText(k: ScopeKind): string {
    match k
    case OnNode => "node"
    case InPool => "pool"
    case Anywhere => "global"
    case OtherScope(text) => text
  }

  function ScopeNamed(text: string): ScopeKind {
    if text == "node" then OnNode
    else if text == "pool" then InPool
    else if text == "global" then Anywhere
    else OtherScope(text)
  }

  function Named(kind: string, name: string): string {
    if name != "" then kind + ":" + name else kind
  }

  function SubjectPart(r: QuotaRule): string {
    Named(SubjectText(r.subject), r.name) + if r.together then TOGETHER else ""
  }

  function Key(r: QuotaRule): string {
    SubjectPart(r) + "@" + Named(ScopeText(r.scope), r.target)
  }

  /** How a well-shaped rule's key is spelled: as in group:release@pool:fast or
      global/together@node:n1. */
  lemma KeyIsSpelled(r: QuotaRule)
    requires r.ValidShape()
    ensures Key(r) ==
      (match r.subject
       case OneUser => "user:" + r.name
       case OneGroup => "group:" + r.name
       case _ => "global")
      + (if r.together then "/together" else "")
      + (match r.scope
         case OnNode => "@node:" + r.target
         case InPool => "@pool:" + r.target
         case _ => "@global")
  {
    hide SubjectPart;
    hide Named;
    SubjectIsSpelled(r);
    ScopeIsSpelled(r);
  }

  lemma SubjectIsSpelled(r: QuotaRule)
    requires r.ValidShape()
    ensures SubjectPart(r) ==
      (match r.subject
       case OneUser => "user:" + r.name
       case OneGroup => "group:" + r.name
       case _ => "global")
      + (if r.together then "/together" else "")
  {
  }

  lemma ScopeIsSpelled(r: QuotaRule)
    requires r.ValidShape()
    ensures "@" + Named(ScopeText(r.scope), r.target) ==
      match r.scope
      case OnNode => "@node:" + r.target
      case InPool => "@pool:" + r.target
      case _ => "@global"
  {
  }

  /** Names are there exactly where they belong, and only groups and everyone are limited together. */
  lemma ShapeMeans(r: QuotaRule)
    ensures r.ValidShape() <==>
      && r.subject in {OneUser, OneGroup, Everyone} && r.scope in {OnNode, InPool, Anywhere}
      && (r.name == "" <==> r.subject == Everyone) && (r.target == "" <==> r.scope == Anywhere)
      && (r.subject == OneUser ==> !r.together) && r.maxSlots >= 0
  {
  }

  predicate HasSuffix(s: string, suffix: string) {
    |suffix| <= |s| && s[|s| - |suffix|..] == suffix
  }

  /** A key's subject and scope; its limit and note are not part of it. */
  function Fields(key: string): QuotaRule {
    var (subj, scope, _) := Cut(key, '@');
    var together := HasSuffix(subj, TOGETHER);
    var (kind, name, _) := Cut(if together then subj[..|subj| - |TOGETHER|] else subj, ':');
    var (where_, target, _) := Cut(scope, ':');
    QuotaRule(SubjectOf(kind), name, together, ScopeNamed(where_), target, 0, "")
  }

  datatype KeyError = NoScope | BadShape

  function ParseRuleKey(key: string): Result<QuotaRule, KeyError> {
    if !Cut(key, '@').2 then Err(NoScope)
    else if !Fields(key).ValidShape() then Err(BadShape)
    else Ok(Fields(key))
  }

  /** The rule, but for its limit and note. */
  function Identity(r: QuotaRule): QuotaRule {
    r.(maxSlots := 0, note := "")
  }

  /** Nothing in the name reads as the rest of a key. */
  predicate PlainName(r: QuotaRule) {
    '@' !in r.name && (r.together || !HasSuffix(r.name, TOGETHER))
  }

  lemma {:induction false} CutBefore(s: string, c: char)
    ensures c !in Cut(s, c).0
  {
    if s != "" && s[0] != c {
      CutBefore(s[1..], c);
    }
  }

  lemma CutNamed(kind: string, name: string)
    requires ':' !in kind
    ensures Cut(Named(kind, name), ':') == (kind, name, name != "")
  {
    if name == "" {
      CutNone(kind, ':');
    } else {
      CutFirst(kind, ':', name);
    }
  }

  lemma SuffixAt(s: string, suffix: string, j: nat)
    requires |s| - |suffix| <= j < |s|
    ensures HasSuffix(s, suffix) ==> s[j] in suffix
  {
  }

  /** A kind in front of a name never completes a suffix the name lacks. */
  lemma NamedSuffix(kind: string, name: string)
    requires ':' !in kind && !HasSuffix(kind, TOGETHER)
    ensures HasSuffix(Named(kind, name), TOGETHER) <==> HasSuffix(name, TOGETHER)
  {
    var s := Named(kind, name);
    if name != "" {
      assert s[|kind|] == ':';
      assert ':' !in TOGETHER;
      if |name| < |TOGETHER| {
        SuffixAt(s, TOGETHER, |kind|);
      } else {
        assert s[|s| - |TOGETHER|..] == name[|name| - |TOGETHER|..];
      }
    }
  }

  lemma KnownKinds(r: QuotaRule)
    requires r.ValidShape()
    ensures var k := SubjectText(r.subject); ':' !in k && '@' !in k && !HasSuffix(k, TOGETHER) && SubjectOf(k) == r.subject
    ensures var k := ScopeText(r.scope); ':' !in k && '@' !in k && ScopeNamed(k) == r.scope
  {
  }

  /** The scope of a key is read back, and with it the subject's part, cut at the first '@'. */
  lemma CutKey(r: QuotaRule)
    requires r.ValidShape() && '@' !in r.name
    ensures Cut(Key(r), '@') == (SubjectPart(r), Named(ScopeText(r.scope), r.target), true)
  {
    KnownKinds(r);
    CutFirst(SubjectPart(r), '@', Named(ScopeText(r.scope), r.target));
  }

  lemma TrimTogether(r: QuotaRule)
    requires r.ValidShape() && PlainName(r)
    ensures HasSuffix(SubjectPart(r), TOGETHER) == r.together
    ensures r.together ==> SubjectPart(r)[..|SubjectPart(r)| - |TOGETHER|] == Named(SubjectText(r.subject), r.name)
  {
    KnownKinds(r);
    NamedSuffix(SubjectText(r.subject), r.name);
  }

  lemma KeyIsRead(r: QuotaRule)
    requires r.ValidShape() && PlainName(r)
    ensures ParseRuleKey(Key(r)) == Ok(Identity(r))
  {
    CutKey(r);
    TrimTogether(r);
    KnownKinds(r);
    CutNamed(SubjectText(r.subject), r.name);
    CutNamed(ScopeText(r.scope), r.target);
    assert !r.together ==> SubjectPart(r) == Named(SubjectText(r.subject), r.name);
    assert Fields(Key(r)) == Identity(r);
  }

  lemma KeyIsMisread(r: QuotaRule)
    requires r.ValidShape() && !PlainName(r)
    ensures ParseRuleKey(Key(r)) != Ok(Identity(r))
  {
    var (subj, _, _) := Cut(Key(r), '@');
    CutBefore(Key(r), '@');
    if '@' in r.name {
      FieldsName(Key(r));
    } else {
      CutKey(r);
      KnownKinds(r);
      NamedSuffix(SubjectText(r.subject), r.name);
    }
  }

  /** The name read from a key holds no '@'. */
  lemma FieldsName(key: string)
    ensures '@' !in Fields(key).name
  {
    CutBefore(key, '@');
    var subj := Cut(key, '@').0;
    CutParts(if HasSuffix(subj, TOGETHER) then subj[..|subj| - |TOGETHER|] else subj, ':');
  }

  lemma {:induction false} CutParts(s: string, c: char)
    ensures forall x <- Cut(s, c).1 :: x in s
  {
    if s != "" && s[0] != c {
      CutParts(s[1..], c);
    }
  }

  /** A key is read back as its rule's identity exactly when nothing in the
      rule's name reads as the rest of a key. */
  lemma KeyRoundTrip(r: QuotaRule)
    requires r.ValidShape()
    ensures ParseRuleKey(Key(r)) == Ok(Identity(r)) <==> PlainName(r)
  {
    if PlainName(r) {
      KeyIsRead(r);
    } else {
      KeyIsMisread(r);
    }
  }

  /** Among such rules, keys tell identities apart. */
  lemma KeysAreInjective(a: QuotaRule, b: QuotaRule)
    requires a.ValidShape() && PlainName(a) && b.ValidShape() && PlainName(b)
    ensures Key(a) == Key(b) <==> Identity(a) == Identity(b)
  {
    KeyIsRead(a);
    KeyIsRead(b);
  }

  /** Two rules of different users whose keys are the same. */
  lemma KeysCollide(a: QuotaRule, b: QuotaRule)
    requires a == QuotaRule(OneUser, "ann@node:lab", false, Anywhere, "", a.maxSlots, a.note)
    requires b == QuotaRule(OneUser, "ann", false, OnNode, "lab@global", b.maxSlots, b.note)
    ensures Key(a) == Key(b) && Identity(a) != Identity(b)
  {
  }

  /** Every key that is accepted stands for a rule with a plain name, so for no other rule's. */
  lemma ReadKeysArePlain(key: string)
    requires ParseRuleKey(key).Ok?
    ensures var r := ParseRuleKey(key).value; PlainName(r) && ParseRuleKey(Key(r)) == Ok(r)
  {
    var r := Fields(key);
    var subj := Cut(key, '@').0;
    FieldsName(key);
    if !r.together {
      CutSuffix(subj, ':', TOGETHER);
    }
    KeyIsRead(r);
  }

  lemma {:induction false} CutSuffix(s: string, c: char, suffix: string)
    requires suffix != "" && !HasSuffix(s, suffix)
    ensures !HasSuffix(Cut(s, c).1, suffix)
  {
    if s != "" {
      var after := s[1..];
      assert |suffix| <= |after| ==> after[|after| - |suffix|..] == s[|s| - |suffix|..];
      if s[0] != c {
        CutSuffix(after, c, suffix);
      }
    }
  }
}
