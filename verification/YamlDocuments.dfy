/** Trees printed as text: every line is read back as it was written. */
module YamlDocuments {
  import opened Wrappers
  import opened Text
  import opened Yaml
  import opened YamlTokens
  import opened YamlTrees

  function Spaces(n: nat): string {
    if n == 0 then "" else " " + Spaces(n - 1)
  }

  function RawLine(l: Line): string {
    Spaces(l.indent) + l.text
  }

  function Print(ls: seq<Line>): string {
    if ls == [] then "" else RawLine(ls[0]) + "\n" + Print(ls[1..])
  }

  /** No string of the tree spans lines. */
  predicate OneLiners(t: Tree) {
    match t
    case Leaf(token) => '\n' !in Written(token)
    case Branch(entries) => forall e <- entries :: OneLiners(e.child)
    case Listing(items) => forall i <- items :: OneLiners(i.child)
  }

  /** A line that holds its own: no comment, no break, nothing to trim. */
  ghost predicate Plain(l: Line) {
    && '\n' !in l.text
    && l.text != "" && l.text != "---"
    && l.text[0] !in SPACES && l.text[|l.text| - 1] !in SPACES
    && CommentAt(RawLine(l), 0, None) == |RawLine(l)|
  }

  // ---------------------------------------------------------------- comments

  lemma {:induction false} NoHashInside(text: string, s: string, i: nat)
    requires i <= |s| && s[i..] == Doubled(text, '\'') + "'"
    ensures CommentAt(s, i, Some('\'')) == |s|
    decreases |text|
  {
    assert s[i] == s[i..][0];
    if text == "" {
      assert |s| == i + 1;
    } else {
      var d := Doubled(text, '\'') + "'";
      if text[0] == '\'' {
        assert d[..2] == "''" && d[2..] == Doubled(text[1..], '\'') + "'";
        assert s[i + 1] == s[i..][1] && s[i + 2..] == s[i..][2..];
        NoHashInside(text[1..], s, i + 2);
        assert CommentAt(s, i, Some('\'')) == CommentAt(s, i + 1, None) == CommentAt(s, i + 2, Some('\''));
      } else {
        assert d[0] == text[0] && d[1..] == Doubled(text[1..], '\'') + "'";
        assert s[i + 1..] == s[i..][1..];
        NoHashInside(text[1..], s, i + 1);
      }
    }
  }

  predicate Dull(c: char) {
    FlowChar(c) || c == ':'
  }

  /** Before the quoted part, nothing begins a quote or a comment. */
  lemma {:induction false} NoHashBefore(head: string, tail: string, s: string, i: nat)
    requires (forall c <- head :: Dull(c)) && i <= |head| && s == head + tail
    ensures CommentAt(s, i, None) == CommentAt(s, |head|, None)
    decreases |head| - i
  {
    if i < |head| {
      assert s[i] == head[i] && head[i] in head;
      NoHashBefore(head, tail, s, i + 1);
    }
  }

  lemma HeadHasNoComment(head: string)
    requires forall c <- head :: Dull(c)
    ensures CommentAt(head, 0, None) == |head|
  {
    assert head + "" == head;
    NoHashBefore(head, "", head, 0);
  }

  lemma QuotedHasNoComment(head: string, text: string)
    requires forall c <- head :: Dull(c)
    ensures CommentAt(head + SingleQuoted(text), 0, None) == |head + SingleQuoted(text)|
  {
    var s := head + SingleQuoted(text);
    NoHashBefore(head, SingleQuoted(text), s, 0);
    assert s[|head|] == '\'' && s[|head| + 1..] == Doubled(text, '\'') + "'";
    NoHashInside(text, s, |head| + 1);
  }

  lemma {:induction false} SpacesAreDull(n: nat)
    ensures |Spaces(n)| == n && forall c <- Spaces(n) :: c == ' '
  {
    if n > 0 {
      SpacesAreDull(n - 1);
    }
  }

  /** A line of a plain head, and perhaps a quoted string. */
  lemma HeadIsPlain(indent: nat, head: string)
    requires head != "" && head != "---" && (forall c <- head :: Dull(c)) && head[0] != ' ' && head[|head| - 1] != ' '
    ensures Plain(Line(indent, head))
  {
    SpacesAreDull(indent);
    HeadHasNoComment(Spaces(indent) + head);
    assert head[0] in head && head[|head| - 1] in head;
  }

  lemma TokenHasNoComment(cv: Conversions, head: string, token: Token)
    requires (forall c <- head :: Dull(c)) && GoodToken(cv, token)
    ensures CommentAt(head + Written(token), 0, None) == |head + Written(token)|
  {
    match token {
      case Quoted(text) => QuotedHasNoComment(head, text);
      case Plain(word) => HeadHasNoComment(head + word.text);
      case Flow(words) =>
        JoinedIsPlain(cv, words);
        HeadHasNoComment(head + Written(token));
    }
  }

  lemma TokenIsPlain(cv: Conversions, indent: nat, head: string, token: Token)
    requires head != "" && (forall c <- head :: Dull(c)) && head[0] != ' ' && ' ' in head
    requires '\n' !in Written(token) && GoodToken(cv, token)
    ensures Plain(Line(indent, head + Written(token)))
  {
    hide Written;
    var line := head + Written(token);
    SpacesAreDull(indent);
    TokenReads(cv, token);
    TokenHasNoComment(cv, Spaces(indent) + head, token);
    assert Spaces(indent) + head + Written(token) == Spaces(indent) + line;
    assert line[0] == head[0] && head[0] in head && ' ' in line;
    assert line[|line| - 1] == Written(token)[|Written(token)| - 1];
  }

  ghost predicate AllPlain(ls: seq<Line>) {
    forall l <- ls :: Plain(l)
  }

  lemma EntryHeadIsPlain(cv: Conversions, e: Entry, indent: nat)
    requires PlainKey(e.key) && Good(cv, e.child) && OneLiners(e.child)
    ensures Plain(EntryHead(e, indent))
  {
    assert e.key[0] in e.key;
    if e.child.Leaf? {
      TokenIsPlain(cv, indent, e.key + ": ", e.child.token);
    } else {
      assert (e.key + ":")[|e.key|] == ':';
      HeadIsPlain(indent, e.key + ":");
    }
  }

  lemma ItemHeadIsPlain(cv: Conversions, i: Item, indent: nat)
    requires Good(cv, i.child) && OneLiners(i.child)
    ensures Plain(ItemHead(i, indent))
  {
    if i.child.Leaf? {
      TokenIsPlain(cv, indent, "- ", i.child.token);
    } else {
      HeadIsPlain(indent, "-");
    }
  }

  lemma {:induction false} LinesArePlain(cv: Conversions, t: Tree, indent: nat)
    requires !t.Leaf? && Good(cv, t) && OneLiners(t)
    ensures AllPlain(LinesOf(t, indent))
    decreases t, 1
  {
    if t.Branch? {
      EntriesArePlain(cv, t.entries, indent);
    } else {
      ItemsArePlain(cv, t.items, indent);
    }
  }

  lemma PlainTogether(head: Line, below: seq<Line>, tail: seq<Line>)
    requires Plain(head) && AllPlain(below) && AllPlain(tail)
    ensures AllPlain([head] + (below + tail))
  {
    hide Plain;
  }

  lemma NoneArePlain(indent: nat)
    ensures AllPlain(EntryLines([], indent)) && AllPlain(ItemLines([], indent)) && AllPlain([])
  {
  }

  lemma {:induction false} EntriesArePlain(cv: Conversions, es: seq<Entry>, indent: nat)
    requires forall e <- es :: PlainKey(e.key) && Good(cv, e.child) && OneLiners(e.child)
    ensures AllPlain(EntryLines(es, indent))
    decreases es, 0
  {
    hide AllPlain;
    hide Good;
    hide OneLiners;
    hide PlainKey;
    hide EntryHead;
    hide LinesOf;
    hide EntryLines;
    NoneArePlain(indent);
    if es != [] {
      var e := es[0];
      assert e in es && e.child < e;
      EntriesArePlain(cv, es[1..], indent);
      EntryHeadIsPlain(cv, e, indent);
      if !e.child.Leaf? {
        LinesArePlain(cv, e.child, indent + e.deeper);
      }
      EntryLinesAre(es, indent, []);
      assert EntryLines(es, indent) + [] == EntryLines(es, indent) && EntryLines(es[1..], indent) + [] == EntryLines(es[1..], indent);
      PlainTogether(EntryHead(e, indent), EntryBelow(e, indent), EntryLines(es[1..], indent));
    }
  }

  lemma {:induction false} ItemsArePlain(cv: Conversions, items: seq<Item>, indent: nat)
    requires forall i <- items :: Good(cv, i.child) && OneLiners(i.child)
    ensures AllPlain(ItemLines(items, indent))
    decreases items, 0
  {
    hide AllPlain;
    hide Good;
    hide OneLiners;
    hide ItemHead;
    hide LinesOf;
    hide ItemLines;
    NoneArePlain(indent);
    if items != [] {
      var i := items[0];
      assert i in items && i.child < i;
      ItemsArePlain(cv, items[1..], indent);
      ItemHeadIsPlain(cv, i, indent);
      if !i.child.Leaf? {
        LinesArePlain(cv, i.child, indent + i.deeper);
      }
      ItemLinesAre(items, indent, []);
      assert ItemLines(items, indent) + [] == ItemLines(items, indent) && ItemLines(items[1..], indent) + [] == ItemLines(items[1..], indent);
      PlainTogether(ItemHead(i, indent), ItemBelow(i, indent), ItemLines(items[1..], indent));
    }
  }

  // ----------------------------------------------------------------- reading

  lemma {:induction false} TrimIndent(n: nat, text: string)
    requires text != "" && text[0] !in SPACES && text[|text| - 1] !in SPACES
    ensures TrimSpace(Spaces(n) + text) == text
  {
    hide TrimRight;
    var s := Spaces(n) + text;
    if n == 0 {
      assert s == text;
      NothingToTrim(text);
    } else {
      TrimIndent(n - 1, text);
      assert s[1..] == Spaces(n - 1) + text;
    }
  }

  lemma NothingToTrim(text: string)
    requires text != "" && text[0] !in SPACES && text[|text| - 1] !in SPACES
    ensures TrimSpace(text) == text
  {
  }

  lemma {:induction false} IndentIsLeading(n: nat, text: string)
    requires text != "" && text[0] !in SPACES
    ensures Leading(Spaces(n) + text, {' '}) == n && Leading(Spaces(n) + text, {' ', '\t'}) == n
  {
    var s := Spaces(n) + text;
    if n == 0 {
      assert s == text;
    } else {
      IndentIsLeading(n - 1, text);
      assert s[1..] == Spaces(n - 1) + text;
    }
  }

  lemma PlainIsRead(l: Line)
    requires Plain(l)
    ensures ReadLine(RawLine(l)[..CommentAt(RawLine(l), 0, None)]) == Content(l)
  {
    TrimIndent(l.indent, l.text);
    IndentIsLeading(l.indent, l.text);
    assert RawLine(l)[..|RawLine(l)|] == RawLine(l);
  }

  function RawAll(ls: seq<Line>): seq<string> {
    seq(|ls|, i requires 0 <= i < |ls| => RawLine(ls[i]))
  }

  lemma {:induction false} PlainLinesRead(ls: seq<Line>)
    requires AllPlain(ls)
    ensures ReadLines(RawAll(ls)) == Some(ls)
  {
    if ls != [] {
      var front, l := ls[..|ls| - 1], ls[|ls| - 1];
      PlainLinesRead(front);
      PlainIsRead(l);
      assert RawAll(ls)[..|ls| - 1] == RawAll(front);
      assert ls == front + [l];
    }
  }

  lemma EndIsBlank(ls: seq<Line>)
    requires AllPlain(ls)
    ensures ReadLines(RawAll(ls) + [""]) == Some(ls)
  {
    PlainLinesRead(ls);
    assert (RawAll(ls) + [""])[..|ls|] == RawAll(ls);
  }

  lemma {:induction false} PrintedSplits(ls: seq<Line>)
    requires AllPlain(ls)
    ensures RawLines(Print(ls)) == RawAll(ls) + [""]
  {
    if ls != [] {
      var rest := Print(ls[1..]);
      PrintedSplits(ls[1..]);
      SpacesAreDull(ls[0].indent);
      assert '\n' !in RawLine(ls[0]) by { assert Plain(ls[0]); }
      CutFirst(RawLine(ls[0]), '\n', rest);
      assert Print(ls) == RawLine(ls[0]) + ['\n'] + rest;
      assert RawAll(ls) == [RawLine(ls[0])] + RawAll(ls[1..]);
    }
  }

  /** A text in which no break follows a carriage return is left as it is. */
  lemma {:induction false} NothingReturned(s: string)
    requires forall i | 0 < i < |s| && s[i] == '\n' :: s[i - 1] != '\r'
    ensures Unreturned(s) == s
  {
    if s != "" {
      assert |s| > 1 && s[1] == '\n' ==> s[0] != '\r';
      forall i | 0 < i < |s| - 1 && s[1..][i] == '\n' ensures s[1..][i - 1] != '\r' {
        assert s[i + 1] == '\n';
      }
      NothingReturned(s[1..]);
      assert s == [s[0]] + s[1..];
    }
  }

  lemma {:induction false} PrintedKeepsReturns(ls: seq<Line>)
    requires AllPlain(ls)
    ensures forall i | 0 < i < |Print(ls)| && Print(ls)[i] == '\n' :: Print(ls)[i - 1] != '\r'
    ensures Print(ls) != "" ==> Print(ls)[0] != '\n'
  {
    if ls != [] {
      var raw, rest := RawLine(ls[0]), Print(ls[1..]);
      PrintedKeepsReturns(ls[1..]);
      SpacesAreDull(ls[0].indent);
      assert Plain(ls[0]);
      assert raw[|raw| - 1] == ls[0].text[|ls[0].text| - 1] && raw[|raw| - 1] != '\r' && '\n' !in raw;
      var s := Print(ls);
      assert s == raw + "\n" + rest;
      assert forall j | 0 <= j < |raw| :: raw[j] in raw;
      forall i | 0 < i < |s| && s[i] == '\n' ensures s[i - 1] != '\r' {
        if i > |raw| + 1 {
          assert rest[i - |raw| - 1] == '\n';
        }
      }
      assert s[0] == raw[0] && raw[0] in raw;
    }
  }

  /** A tree of non-empty mappings with plain keys, non-empty sequences and
      scalars - single-quoted strings, plain words, lists of words in brackets -
      printed at any indentation, parses back to its value, every line read. */
  lemma PrintedTreeParses(cv: Conversions, t: Tree, indent: nat)
    requires !t.Leaf? && Good(cv, t) && OneLiners(t)
    ensures Document(cv, Print(LinesOf(t, indent))) == Some(ValueOf(t))
  {
    var ls := LinesOf(t, indent);
    LinesArePlain(cv, t, indent);
    PrintedKeepsReturns(ls);
    NothingReturned(Print(ls));
    PrintedSplits(ls);
    EndIsBlank(ls);
    BlockReads(cv, t, indent, []);
    assert ls + [] == ls;
  }

  // ------------------------------------------------------------------- quirks

  predicate Below(ls: seq<Line>, indent: nat) {
    ls != [] && ls[0].indent > indent
  }

  /** An item "- key: rest" is a mapping, in which the key is found exactly when
      something follows its colon or the lines below, taken for further keys of
      the item, have it again. */
  lemma InlineKeyKept(cv: Conversions, item: string, ls: seq<Line>, indent: nat)
    requires KeyAndRest(cv, item).Some? && ItemValue(cv, item, ls, indent).Some?
    ensures var (key, rest) := KeyAndRest(cv, item).value;
            var v := ItemValue(cv, item, ls, indent).value.0;
      && v.Fields?
      && (key in v.fields <==>
            rest != "" || (Below(ls, indent) && Mapping(cv, ls, ls[0].indent, map[]).Some?
                           && key in Mapping(cv, ls, ls[0].indent, map[]).value.0))
  {
    hide Mapping;
    hide Scalar;
    assert item != "";
  }

  /** Mapping lines below an item "- key:" do not go under the key: the item is
      the mapping they make, and the key is lost unless they have it again. With
      nothing below, the item is an empty mapping. */
  lemma InlineKeyIsLost(cv: Conversions, item: string, ls: seq<Line>, indent: nat)
    requires KeyAndRest(cv, item).Some? && KeyAndRest(cv, item).value.1 == ""
    ensures ItemValue(cv, item, ls, indent) ==
            if !Below(ls, indent) then Some((Fields(map[]), ls))
            else if Mapping(cv, ls, ls[0].indent, map[]).None? then None
            else Some((Fields(Mapping(cv, ls, ls[0].indent, map[]).value.0), Mapping(cv, ls, ls[0].indent, map[]).value.1))
  {
    hide Mapping;
    hide Scalar;
    assert item != "";
    if Below(ls, indent) && Mapping(cv, ls, ls[0].indent, map[]).Some? {
      assert map[] + Mapping(cv, ls, ls[0].indent, map[]).value.0 == Mapping(cv, ls, ls[0].indent, map[]).value.0;
    }
  }

  /** A sequence below an item "- key: rest" is an error. */
  lemma InlineSequenceIsRejected(cv: Conversions, item: string, ls: seq<Line>, indent: nat)
    requires KeyAndRest(cv, item).Some? && Below(ls, indent) && IsItem(ls[0].text)
    ensures ItemValue(cv, item, ls, indent).None?
  {
    assert item != "";
    if ls[0].text == "-" {
      assert Colon("-", 0, None).None?;
    }
  }

  /** Every tree of mappings below "- key:" is so read: as the item itself. */
  lemma TreeTakesThePlaceOfItsKey(cv: Conversions, key: string, es: seq<Entry>, deeper: nat, indent: nat, rest: seq<Line>)
    requires PlainKey(key) && Good(cv, Branch(es)) && Ends(rest, indent + 1 + deeper)
    ensures ItemValue(cv, key + ":", LinesOf(Branch(es), indent + 1 + deeper) + rest, indent) == Some((ValueOf(Branch(es)), rest))
  {
    hide Mapping;
    hide KeyAndRest;
    hide PlainKey;
    hide Scalar;
    hide Written;
    var at := indent + 1 + deeper;
    var below := LinesOf(Branch(es), at) + rest;
    KeyHeads(cv, key);
    EntriesRead(cv, es, at, rest, map[]);
    EntryLinesAre(es, at, rest);
    assert below[0].indent == at;
    InlineKeyIsLost(cv, key + ":", below, indent);
  }
}
