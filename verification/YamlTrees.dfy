/** Trees written in block style parse back to themselves (a subset of section
    8.2 of YAML 1.2.2). */
module YamlTrees {
  import opened Wrappers
  import opened Text
  import opened Yaml
  import opened YamlTokens

  // A tree as it is laid out: each child block is some columns deeper than its
  // parent, and a nested item stands below a lone dash.
  datatype Tree = Leaf(token: Token) | Branch(entries: seq<Entry>) | Listing(items: seq<Item>)

  datatype Entry = Entry(key: string, deeper: nat, child: Tree)

  datatype Item = Item(deeper: nat, child: Tree)

  /** A key that needs no quotes and begins no item. */
  predicate PlainKey(key: string) {
    key != "" && key[0] != '-' && forall c <- key :: KeyChar(c)
  }

  predicate Deeper(deeper: nat, child: Tree) {
    !child.Leaf? ==> deeper > 0
  }

  predicate Good(cv: Conversions, t: Tree) {
    match t
    case Leaf(token) => GoodToken(cv, token)
    case Branch(entries) => entries != [] && forall e <- entries :: PlainKey(e.key) && Deeper(e.deeper, e.child) && Good(cv, e.child)
    case Listing(items) => items != [] && forall i <- items :: Deeper(i.deeper, i.child) && Good(cv, i.child)
  }

  /** What the tree means; a repeated key means its last value. */
  function ValueOf(t: Tree): Value {
    match t
    case Leaf(token) => Meaning(token)
    case Branch(entries) => Fields(FieldsOf(entries, map[]))
    case Listing(items) => Items(ItemsOf(items))
  }

  function FieldsOf(es: seq<Entry>, before: map<string, Value>): map<string, Value> {
    if es == [] then before else FieldsOf(es[1..], before[es[0].key := ValueOf(es[0].child)])
  }

  function ItemsOf(items: seq<Item>): seq<Value> {
    if items == [] then []
    else
      assert items[0].child < items[0];
      [ValueOf(items[0].child)] + ItemsOf(items[1..])
  }

  function LinesOf(t: Tree, indent: nat): seq<Line>
    requires !t.Leaf?
  {
    match t
    case Branch(entries) => EntryLines(entries, indent)
    case Listing(items) => ItemLines(items, indent)
  }

  function EntryLines(es: seq<Entry>, indent: nat): seq<Line> {
    if es == [] then []
    else
      var e := es[0];
      (if e.child.Leaf? then [Line(indent, e.key + ": " + Written(e.child.token))]
       else [Line(indent, e.key + ":")] + LinesOf(e.child, indent + e.deeper))
      + EntryLines(es[1..], indent)
  }

  function ItemLines(items: seq<Item>, indent: nat): seq<Line> {
    if items == [] then []
    else
      var i := items[0];
      assert i.child < i;
      (if i.child.Leaf? then [Line(indent, "- " + Written(i.child.token))]
       else [Line(indent, "-")] + LinesOf(i.child, indent + i.deeper))
      + ItemLines(items[1..], indent)
  }

  lemma {:induction false} ColonAfterKey(key: string, s: string, i: nat)
    requires (forall c <- key :: KeyChar(c)) && i <= |key| < |s| && s[..|key|] == key
    requires s[|key|] == ':' && (|key| + 1 == |s| || s[|key| + 1] == ' ')
    ensures Colon(s, i, None) == Some(|key|)
    decreases |key| - i
  {
    if i < |key| {
      assert s[i] == key[i] && key[i] in key;
      ColonAfterKey(key, s, i + 1);
    }
  }

  lemma KeyIsTrimmed(key: string)
    requires PlainKey(key)
    ensures TrimSpace(key) == key
  {
    assert key[0] in key && key[|key| - 1] in key;
  }

  lemma KeyIsNotQuoted(cv: Conversions, key: string)
    requires PlainKey(key)
    ensures Unquote(cv, key) == None
  {
    assert key[0] in key;
  }

  /** A key's line is cut into the key and what follows. */
  lemma KeyReads(cv: Conversions, key: string, after: string)
    requires PlainKey(key) && (after == "" || after[0] == ' ')
    ensures KeyAndRest(cv, key + ":" + after) == Some((key, TrimSpace(after)))
  {
    var s := key + ":" + after;
    assert s[..|key|] == key && s[|key| + 1..] == after;
    assert after != "" ==> s[|key| + 1] == after[0];
    ColonAfterKey(key, s, 0);
    KeyIsTrimmed(key);
    KeyIsNotQuoted(cv, key);
  }

  // -------------------------------------------------------------- round trip

  /** What follows a block is indented less, if anything follows. */
  predicate Ends(rest: seq<Line>, indent: nat) {
    rest != [] ==> rest[0].indent < indent
  }

  lemma HeadIsNoItem(e: Entry, indent: nat)
    requires PlainKey(e.key)
    ensures !IsItem(EntryHead(e, indent).text)
  {
    assert EntryHead(e, indent).text[0] == e.key[0];
  }

  lemma HeadIsItem(i: Item, indent: nat)
    ensures IsItem(ItemHead(i, indent).text)
  {
    if i.child.Leaf? {
      assert ("- " + Written(i.child.token))[..2] == "- ";
    }
  }

  lemma LinesStart(cv: Conversions, t: Tree, indent: nat)
    requires !t.Leaf? && Good(cv, t)
    ensures LinesOf(t, indent) != [] && LinesOf(t, indent)[0].indent == indent
    ensures IsItem(LinesOf(t, indent)[0].text) <==> t.Listing?
  {
    hide IsItem;
    hide PlainKey;
    hide EntryLines;
    hide ItemLines;
    hide Written;
    if t.Branch? {
      var e := t.entries[0];
      assert e in t.entries && PlainKey(e.key);
      EntryLinesAre(t.entries, indent, []);
      assert EntryLines(t.entries, indent) + [] == EntryLines(t.entries, indent);
      HeadIsNoItem(e, indent);
    } else {
      ItemLinesAre(t.items, indent, []);
      assert ItemLines(t.items, indent) + [] == ItemLines(t.items, indent);
      HeadIsItem(t.items[0], indent);
    }
  }

  /** A nested block below a key or a dash is read whole. */
  lemma {:induction false} BlockReads(cv: Conversions, t: Tree, indent: nat, rest: seq<Line>)
    requires !t.Leaf? && Good(cv, t) && Ends(rest, indent)
    ensures LinesOf(t, indent) != [] && LinesOf(t, indent)[0].indent == indent
    ensures Block(cv, LinesOf(t, indent) + rest, indent) == Some((ValueOf(t), rest))
    decreases t, 1
  {
    LinesStart(cv, t, indent);
    if t.Branch? {
      EntriesRead(cv, t.entries, indent, rest, map[]);
    } else {
      ItemsRead(cv, t.items, indent, rest, []);
      assert [] + ItemsOf(t.items) == ItemsOf(t.items);
    }
  }

  lemma LeafEntryReads(cv: Conversions, key: string, token: Token)
    requires PlainKey(key) && GoodToken(cv, token)
    ensures KeyAndRest(cv, key + ": " + Written(token)) == Some((key, Written(token)))
  {
    TokenReads(cv, token);
    var after := " " + Written(token);
    KeyReads(cv, key, after);
    assert key + ":" + after == key + ": " + Written(token);
    assert after[1..] == Written(token);
    TrimSpaceBefore(Written(token));
  }

  lemma NotAnItem(key: string, after: string)
    requires PlainKey(key)
    ensures !StartsWith(key + after, "- ")
  {
    assert (key + after)[0] == key[0];
  }

  lemma {:induction false} EntriesRead(cv: Conversions, es: seq<Entry>, indent: nat, rest: seq<Line>, out: map<string, Value>)
    requires forall e <- es :: PlainKey(e.key) && Deeper(e.deeper, e.child) && Good(cv, e.child)
    requires Ends(rest, indent)
    ensures Mapping(cv, EntryLines(es, indent) + rest, indent, out) == Some((FieldsOf(es, out), rest))
    decreases es, 0
  {
    if es == [] {
      assert EntryLines(es, indent) + rest == rest;
    } else {
      var e, tail := es[0], EntryLines(es[1..], indent) + rest;
      assert e in es;
      EntriesRead(cv, es[1..], indent, rest, out[e.key := ValueOf(e.child)]);
      EntryReads(cv, es, indent, rest, out);
    }
  }

  lemma MappingLeaf(cv: Conversions, l: Line, tail: seq<Line>, indent: nat, out: map<string, Value>, key: string, rest: string, v: Value)
    requires l.indent == indent && !StartsWith(l.text, "- ")
    requires KeyAndRest(cv, l.text) == Some((key, rest)) && rest != "" && Scalar(cv, rest) == Some(v)
    ensures Mapping(cv, [l] + tail, indent, out) == Mapping(cv, tail, indent, out[key := v])
  {
    hide Scalar;
    hide KeyAndRest;
    assert ([l] + tail)[1..] == tail;
  }

  lemma MappingNested(cv: Conversions, l: Line, below: seq<Line>, tail: seq<Line>, indent: nat, out: map<string, Value>, key: string, v: Value)
    requires l.indent == indent && !StartsWith(l.text, "- ")
    requires KeyAndRest(cv, l.text) == Some((key, "")) && below != [] && below[0].indent > indent
    requires Block(cv, below, below[0].indent) == Some((v, tail))
    ensures Mapping(cv, [l] + below, indent, out) == Mapping(cv, tail, indent, out[key := v])
  {
    hide Block;
    hide KeyAndRest;
    assert ([l] + below)[1..] == below;
  }

  function EntryHead(e: Entry, indent: nat): Line {
    Line(indent, if e.child.Leaf? then e.key + ": " + Written(e.child.token) else e.key + ":")
  }

  function EntryBelow(e: Entry, indent: nat): seq<Line> {
    if e.child.Leaf? then [] else LinesOf(e.child, indent + e.deeper)
  }

  lemma EntryLinesAre(es: seq<Entry>, indent: nat, rest: seq<Line>)
    requires es != []
    ensures EntryLines(es, indent) + rest == [EntryHead(es[0], indent)] + (EntryBelow(es[0], indent) + (EntryLines(es[1..], indent) + rest))
  {
    hide LinesOf;
    hide Written;
  }

  lemma {:induction false} EntryReads(cv: Conversions, es: seq<Entry>, indent: nat, rest: seq<Line>, out: map<string, Value>)
    requires es != [] && PlainKey(es[0].key) && Deeper(es[0].deeper, es[0].child) && Good(cv, es[0].child)
    requires Ends(rest, indent)
    ensures Mapping(cv, EntryLines(es, indent) + rest, indent, out)
         == Mapping(cv, EntryLines(es[1..], indent) + rest, indent, out[es[0].key := ValueOf(es[0].child)])
    decreases es[0], 0
  {
    hide Mapping;
    hide Block;
    hide KeyAndRest;
    hide Scalar;
    hide TrimSpace;
    hide EntryLines;
    hide LinesOf;
    hide Good;
    hide PlainKey;
    var e, tail := es[0], EntryLines(es[1..], indent) + rest;
    EntryLinesAre(es, indent, rest);
    if e.child.Leaf? {
      LeafIsGood(cv, e.child);
      LeafEntry(cv, e, tail, indent, out);
      assert [] + tail == tail;
    } else {
      var inner := indent + e.deeper;
      KeyHeads(cv, e.key);
      TailEnds(es, indent, rest, inner);
      BlockReads(cv, e.child, inner, tail);
      MappingNested(cv, EntryHead(e, indent), LinesOf(e.child, inner) + tail, tail, indent, out, e.key, ValueOf(e.child));
    }
  }

  lemma LeafIsGood(cv: Conversions, t: Tree)
    requires t.Leaf? && Good(cv, t)
    ensures GoodToken(cv, t.token)
  {
  }

  lemma LeafEntry(cv: Conversions, e: Entry, tail: seq<Line>, indent: nat, out: map<string, Value>)
    requires e.child.Leaf? && PlainKey(e.key) && GoodToken(cv, e.child.token)
    ensures Mapping(cv, [EntryHead(e, indent)] + tail, indent, out) == Mapping(cv, tail, indent, out[e.key := ValueOf(e.child)])
  {
    hide Mapping;
    hide KeyAndRest;
    hide Scalar;
    hide TrimSpace;
    hide Written;
    hide PlainKey;
    LeafEntryReads(cv, e.key, e.child.token);
    TokenReads(cv, e.child.token);
    NotAnItem(e.key, ": " + Written(e.child.token));
    assert e.key + (": " + Written(e.child.token)) == EntryHead(e, indent).text;
    MappingLeaf(cv, EntryHead(e, indent), tail, indent, out, e.key, Written(e.child.token), Meaning(e.child.token));
  }

  lemma KeyHeads(cv: Conversions, key: string)
    requires PlainKey(key)
    ensures KeyAndRest(cv, key + ":") == Some((key, "")) && !StartsWith(key + ":", "- ")
  {
    KeyReads(cv, key, "");
    assert key + ":" + "" == key + ":";
    NotAnItem(key, ":");
  }

  lemma TailEnds(es: seq<Entry>, indent: nat, rest: seq<Line>, inner: nat)
    requires es != [] && Ends(rest, indent) && indent < inner
    ensures Ends(EntryLines(es[1..], indent) + rest, inner)
  {
  }

  lemma ItemTailEnds(items: seq<Item>, indent: nat, rest: seq<Line>, inner: nat)
    requires items != [] && Ends(rest, indent) && indent < inner
    ensures Ends(ItemLines(items[1..], indent) + rest, inner)
  {
  }

  lemma {:induction false} ItemsRead(cv: Conversions, items: seq<Item>, indent: nat, rest: seq<Line>, out: seq<Value>)
    requires forall i <- items :: Deeper(i.deeper, i.child) && Good(cv, i.child)
    requires Ends(rest, indent)
    ensures Sequence(cv, ItemLines(items, indent) + rest, indent, out) == Some((out + ItemsOf(items), rest))
    decreases items, 0
  {
    if items == [] {
      assert ItemLines(items, indent) + rest == rest;
      assert out + ItemsOf(items) == out;
    } else {
      var i := items[0];
      assert i in items;
      ItemsRead(cv, items[1..], indent, rest, out + [ValueOf(i.child)]);
      assert out + [ValueOf(i.child)] + ItemsOf(items[1..]) == out + ItemsOf(items);
      ItemReads(cv, items, indent, rest, out);
    }
  }

  lemma LeafItemReads(cv: Conversions, token: Token)
    requires GoodToken(cv, token)
    ensures IsItem("- " + Written(token)) && ItemOf("- " + Written(token)) == Written(token)
  {
    hide TrimSpace;
    hide Written;
    hide GoodToken;
    var s := "- " + Written(token);
    assert s[..2] == "- " && s[..1] == "-" && s[1..] == " " + Written(token);
    TokenReads(cv, token);
    TrimSpaceBefore(Written(token));
  }

  lemma SequenceLeaf(cv: Conversions, l: Line, tail: seq<Line>, indent: nat, out: seq<Value>, item: string, v: Value)
    requires l.indent == indent && IsItem(l.text) && ItemOf(l.text) == item && item != ""
    requires KeyAndRest(cv, item) == None && Scalar(cv, item) == Some(v)
    ensures Sequence(cv, [l] + tail, indent, out) == Sequence(cv, tail, indent, out + [v])
  {
    hide Scalar;
    hide KeyAndRest;
    hide IsItem;
    assert ([l] + tail)[1..] == tail;
  }

  lemma SequenceNested(cv: Conversions, below: seq<Line>, tail: seq<Line>, indent: nat, out: seq<Value>, v: Value)
    requires below != [] && below[0].indent > indent && Block(cv, below, below[0].indent) == Some((v, tail))
    ensures Sequence(cv, [Line(indent, "-")] + below, indent, out) == Sequence(cv, tail, indent, out + [v])
  {
    hide Block;
    hide KeyAndRest;
    assert ([Line(indent, "-")] + below)[1..] == below;
    assert "-"[1..] == "" && ItemOf("-") == "";
  }

  function ItemHead(i: Item, indent: nat): Line {
    Line(indent, if i.child.Leaf? then "- " + Written(i.child.token) else "-")
  }

  function ItemBelow(i: Item, indent: nat): seq<Line> {
    if i.child.Leaf? then [] else LinesOf(i.child, indent + i.deeper)
  }

  lemma ItemLinesAre(items: seq<Item>, indent: nat, rest: seq<Line>)
    requires items != []
    ensures ItemLines(items, indent) + rest == [ItemHead(items[0], indent)] + (ItemBelow(items[0], indent) + (ItemLines(items[1..], indent) + rest))
  {
    hide LinesOf;
    hide Written;
  }

  lemma {:induction false} ItemReads(cv: Conversions, items: seq<Item>, indent: nat, rest: seq<Line>, out: seq<Value>)
    requires items != [] && Deeper(items[0].deeper, items[0].child) && Good(cv, items[0].child)
    requires Ends(rest, indent)
    ensures Sequence(cv, ItemLines(items, indent) + rest, indent, out)
         == Sequence(cv, ItemLines(items[1..], indent) + rest, indent, out + [ValueOf(items[0].child)])
    decreases items[0], 0
  {
    hide Sequence;
    hide Block;
    hide KeyAndRest;
    hide Scalar;
    hide TrimSpace;
    hide ItemLines;
    hide LinesOf;
    hide Good;
    var i, tail := items[0], ItemLines(items[1..], indent) + rest;
    ItemLinesAre(items, indent, rest);
    if i.child.Leaf? {
      LeafIsGood(cv, i.child);
      LeafItem(cv, i, tail, indent, out);
      assert [] + tail == tail;
    } else {
      var inner := indent + i.deeper;
      ItemTailEnds(items, indent, rest, inner);
      BlockReads(cv, i.child, inner, tail);
      SequenceNested(cv, LinesOf(i.child, inner) + tail, tail, indent, out, ValueOf(i.child));
    }
  }

  lemma LeafItem(cv: Conversions, i: Item, tail: seq<Line>, indent: nat, out: seq<Value>)
    requires i.child.Leaf? && GoodToken(cv, i.child.token)
    ensures Sequence(cv, [ItemHead(i, indent)] + tail, indent, out) == Sequence(cv, tail, indent, out + [ValueOf(i.child)])
  {
    hide Sequence;
    hide KeyAndRest;
    hide Scalar;
    hide TrimSpace;
    hide Written;
    LeafItemReads(cv, i.child.token);
    TokenReads(cv, i.child.token);
    SequenceLeaf(cv, ItemHead(i, indent), tail, indent, out, Written(i.child.token), Meaning(i.child.token));
  }
}
