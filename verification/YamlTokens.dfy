/** The scalars of a document as they are written: single-quoted strings, plain
    words, and lists of words in brackets (a subset of section 7 of YAML 1.2.2). */
module YamlTokens {
  import opened Wrappers
  import opened Text
  import opened Yaml

  predicate KeyChar(c: char) {
    'a' <= c <= 'z' || 'A' <= c <= 'Z' || '0' <= c <= '9' || c == '_' || c == '.' || c == '/' || c == '-'
  }

  // A word as written, and what it stands for.
  datatype Word = Word(text: string, value: Value)

  datatype Token = Quoted(text: string) | Plain(word: Word) | Flow(words: seq<Word>)

  function SingleQuoted(s: string): string {
    "'" + Doubled(s, '\'') + "'"
  }

  function Joined(ws: seq<Word>): string {
    if ws == [] then ""
    else if |ws| == 1 then ws[0].text
    else ws[0].text + ", " + Joined(ws[1..])
  }

  function Written(t: Token): string {
    match t
    case Quoted(text) => SingleQuoted(text)
    case Plain(word) => word.text
    case Flow(words) => "[" + Joined(words) + "]"
  }

  function Values(ws: seq<Word>): seq<Value> {
    seq(|ws|, i requires 0 <= i < |ws| => ws[i].value)
  }

  function Meaning(t: Token): Value {
    match t
    case Quoted(text) => Str(text)
    case Plain(word) => word.value
    case Flow(words) => Items(Values(words))
  }

  predicate WordChar(c: char) {
    KeyChar(c) || c == ' ' || c == '~' || c == '+'
  }

  predicate Reserved(text: string) {
    text in {"null", "~", "true", "yes", "on", "false", "no", "off"}
  }

  /** What a plain word stands for: nothing, a truth value, a number if it is
      read as one, and otherwise itself. */
  predicate StandsFor(cv: Conversions, text: string, value: Value) {
    match value
    case Null => text == "null" || text == "~"
    case Bool(b) => if b then text == "true" || text == "yes" || text == "on" else text == "false" || text == "no" || text == "off"
    case Number(n) => n == text && !Reserved(text) && cv.isNumber(text)
    case Str(t) => t == text && !Reserved(text) && !cv.isNumber(text)
    case _ => false
  }

  predicate GoodWord(cv: Conversions, w: Word) {
    && w.text != "" && (forall c <- w.text :: WordChar(c)) && w.text[0] != ' ' && w.text[|w.text| - 1] != ' '
    && StandsFor(cv, w.text, w.value)
  }

  predicate GoodToken(cv: Conversions, t: Token) {
    match t
    case Quoted(_) => true
    case Plain(word) => GoodWord(cv, word)
    case Flow(words) => forall w <- words :: GoodWord(cv, w)
  }

  // ----------------------------------------------------------- quoted strings

  lemma {:induction false} UndoublesBack(s: string)
    ensures Undoubled(Doubled(s, '\'')) == s
  {
    if s != "" {
      UndoublesBack(s[1..]);
      var d := Doubled(s, '\'');
      assert s == [s[0]] + s[1..];
      if s[0] == '\'' {
        assert d[2..] == Doubled(s[1..], '\'');
      } else {
        assert d[1..] == Doubled(s[1..], '\'');
      }
    }
  }

  lemma QuotedReads(cv: Conversions, s: string)
    ensures Scalar(cv, SingleQuoted(s)) == Some(Str(s))
    ensures TrimSpace(SingleQuoted(s)) == SingleQuoted(s) && SingleQuoted(s) != ""
  {
    hide Undoubled;
    hide Doubled;
    hide ScalarsOf;
    var q := SingleQuoted(s);
    assert q[0] == '\'' && q[|q| - 1] == '\'' && q[1..|q| - 1] == Doubled(s, '\'');
    UndoublesBack(s);
  }

  /** Inside single quotes there is no end of a key. */
  lemma {:induction false} NoColonInside(text: string, s: string, i: nat)
    requires i <= |s| && s[i..] == Doubled(text, '\'') + "'"
    ensures Colon(s, i, Some('\'')) == None
    decreases |text|
  {
    assert s[i] == s[i..][0];
    if text == "" {
      assert |s| == i + 1;
    } else {
      var d := Doubled(text, '\'') + "'";
      if text[0] == '\'' {
        assert d[..2] == "''" && d[2..] == Doubled(text[1..], '\'') + "'";
        assert s[i + 1] == s[i..][1] && s[i + 2..] == s[i..][2..];
        NoColonInside(text[1..], s, i + 2);
        assert Colon(s, i, Some('\'')) == Colon(s, i + 1, None) == Colon(s, i + 2, Some('\''));
      } else {
        assert d[0] == text[0] && d[1..] == Doubled(text[1..], '\'') + "'";
        assert s[i + 1..] == s[i..][1..];
        NoColonInside(text[1..], s, i + 1);
      }
    }
  }

  lemma QuotedHasNoKey(cv: Conversions, text: string)
    ensures KeyAndRest(cv, SingleQuoted(text)) == None
  {
    var s := SingleQuoted(text);
    assert s[0] == '\'' && s[1..] == Doubled(text, '\'') + "'";
    NoColonInside(text, s, 1);
    assert Colon(s, 0, None) == Colon(s, 1, Some('\''));
  }

  lemma TrimSpaceBefore(s: string)
    requires s != "" && s[0] !in SPACES
    ensures TrimSpace(" " + s) == TrimSpace(s)
  {
    assert (" " + s)[1..] == s;
  }

  // ------------------------------------------------------------------- words

  lemma WordIsTrimmed(cv: Conversions, w: Word)
    requires GoodWord(cv, w)
    ensures TrimSpace(w.text) == w.text && w.text[0] !in SPACES
  {
    hide TrimSpace;
    hide StandsFor;
    assert w.text[0] in w.text && w.text[|w.text| - 1] in w.text;
    NoBlank(w.text[0]);
    NoBlank(w.text[|w.text| - 1]);
    TrimsToItself(w.text);
  }

  lemma NoBlank(c: char)
    requires WordChar(c) && c != ' '
    ensures c !in SPACES
  {
  }

  lemma WordReads(cv: Conversions, w: Word)
    requires GoodWord(cv, w)
    ensures Scalar(cv, w.text) == Some(w.value)
  {
    hide ScalarsOf;
    hide FlowParts;
    hide TrimSpace;
    assert w.text[0] in w.text;
    assert w.text[..1] == [w.text[0]];
  }

  /** A text without colons and quotes holds no key. */
  lemma {:induction false} NoColon(s: string, i: nat)
    requires i <= |s| && forall c <- s :: c != ':' && c != '"' && c != '\''
    ensures Colon(s, i, None) == None
    decreases |s| - i
  {
    if i < |s| {
      assert s[i] in s;
      NoColon(s, i + 1);
    }
  }

  predicate FlowChar(c: char) {
    WordChar(c) || c == '[' || c == ']' || c == ','
  }

  lemma {:induction false} JoinedIsPlain(cv: Conversions, ws: seq<Word>)
    requires forall w <- ws :: GoodWord(cv, w)
    ensures forall c <- Joined(ws) :: WordChar(c) || c == ','
    ensures ws != [] ==> Joined(ws) != "" && Joined(ws)[0] !in SPACES && Joined(ws)[|Joined(ws)| - 1] !in SPACES
  {
    if |ws| == 1 {
      WordIsTrimmed(cv, ws[0]);
      assert ws[0].text[|ws[0].text| - 1] in ws[0].text;
    } else if ws != [] {
      WordIsTrimmed(cv, ws[0]);
      JoinedIsPlain(cv, ws[1..]);
    }
  }

  // ------------------------------------------------------------------- lists

  /** Up to the next comma nothing is cut. */
  lemma {:induction false} NothingCut(s: string, start: nat, i: nat, j: nat)
    requires start <= i <= j <= |s| && forall k | i <= k < j :: s[k] != ',' && s[k] != '"' && s[k] != '\''
    ensures FlowParts(s, start, i, None) == FlowParts(s, start, j, None)
    decreases j - i
  {
    if i < j {
      NothingCut(s, start, i + 1, j);
    }
  }

  /** The parts between commas: the first word, then each with the blank before it. */
  function PartsOf(ws: seq<Word>, lead: string): seq<string>
    requires ws != []
  {
    if |ws| == 1 then [lead + ws[0].text] else [lead + ws[0].text] + PartsOf(ws[1..], " ")
  }

  lemma {:induction false} PartsAre(cv: Conversions, s: string, start: nat, ws: seq<Word>, lead: string)
    requires ws != [] && (forall w <- ws :: GoodWord(cv, w)) && lead in {"", " "}
    requires start <= |s| && s[start..] == lead + Joined(ws)
    ensures FlowParts(s, start, start, None) == PartsOf(ws, lead)
    decreases |ws|
  {
    hide GoodWord;
    hide Joined;
    hide FlowParts;
    JoinedUnfolds(ws);
    var first := lead + ws[0].text;
    var j := start + |first|;
    assert ws[0] in ws;
    if |ws| > 1 {
      var after := " " + Joined(ws[1..]);
      assert s[start..] == first + ("," + after);
      OnePart(cv, s, start, ws[0], lead, "," + after);
      assert s[j..][0] == ',' && s[j + 1..] == s[j..][1..] == after;
      PartsAre(cv, s, j + 1, ws[1..], " ");
      PartEnds(s, start, j);
    } else {
      assert s[start..] == first + "";
      OnePart(cv, s, start, ws[0], lead, "");
      PartEnds(s, start, j);
    }
  }

  lemma JoinedUnfolds(ws: seq<Word>)
    requires ws != []
    ensures Joined(ws) == if |ws| == 1 then ws[0].text else ws[0].text + ", " + Joined(ws[1..])
  {
  }

  lemma PartEnds(s: string, start: nat, j: nat)
    requires start <= j <= |s| && (j < |s| ==> s[j] == ',')
    ensures FlowParts(s, start, j, None) == [s[start..j]] + if j < |s| then FlowParts(s, j + 1, j + 1, None) else []
  {
    assert s[start..|s|] == s[start..];
  }

  lemma OnePart(cv: Conversions, s: string, start: nat, w: Word, lead: string, after: string)
    requires GoodWord(cv, w) && lead in {"", " "} && start <= |s| && s[start..] == lead + w.text + after
    ensures var j := start + |lead + w.text|;
      j <= |s| && s[start..j] == lead + w.text && s[j..] == after && FlowParts(s, start, start, None) == FlowParts(s, start, j, None)
  {
    hide FlowParts;
    var first := lead + w.text;
    var j := start + |first|;
    assert s[start..][..|first|] == first && s[start..][|first|..] == after;
    forall k | start <= k < j ensures s[k] != ',' && s[k] != '"' && s[k] != '\'' {
      assert s[k] == first[k - start];
      assert k - start >= |lead| ==> s[k] in w.text;
    }
    NothingCut(s, start, start, j);
  }

  lemma {:induction false} PartsRead(cv: Conversions, ws: seq<Word>, lead: string, bound: nat)
    requires ws != [] && (forall w <- ws :: GoodWord(cv, w)) && lead in {"", " "}
    requires forall p <- PartsOf(ws, lead) :: |p| <= bound
    ensures ScalarsOf(cv, PartsOf(ws, lead), bound) == Some(Values(ws))
    decreases |ws|
  {
    hide Scalar;
    hide TrimSpace;
    var parts := PartsOf(ws, lead);
    assert ws[0] in ws;
    WordIsTrimmed(cv, ws[0]);
    WordReads(cv, ws[0]);
    if lead == " " {
      TrimSpaceBefore(ws[0].text);
    } else {
      assert lead + ws[0].text == ws[0].text;
    }
    assert Values(ws) == [ws[0].value] + Values(ws[1..]);
    if |ws| > 1 {
      assert parts[1..] == PartsOf(ws[1..], " ");
      PartsRead(cv, ws[1..], " ", bound);
    } else {
      assert parts[1..] == [] && Values(ws[1..]) == [];
      assert ScalarsOf(cv, [], bound) == Some([]);
    }
  }

  lemma {:induction false} TrimsToItself(s: string)
    requires s != "" ==> s[0] !in SPACES && s[|s| - 1] !in SPACES
    ensures TrimSpace(s) == s
  {
  }

  lemma NothingJoined()
    ensures Joined([]) == ""
  {
  }

  lemma FlowReads(cv: Conversions, ws: seq<Word>)
    requires forall w <- ws :: GoodWord(cv, w)
    ensures Scalar(cv, "[" + Joined(ws) + "]") == Some(Items(Values(ws)))
  {
    hide FlowParts;
    hide ScalarsOf;
    hide TrimSpace;
    hide GoodWord;
    hide Joined;
    hide PartsOf;
    var s := "[" + Joined(ws) + "]";
    assert s[..1] == "[" && s[1..|s| - 1] == Joined(ws) && s[|s| - 1] == ']';
    JoinedIsPlain(cv, ws);
    NothingJoined();
    TrimsToItself(Joined(ws));
    if ws == [] {
      assert Values(ws) == [];
    } else {
      assert Joined(ws)[0..] == Joined(ws) == "" + Joined(ws);
      PartsAre(cv, Joined(ws), 0, ws, "");
      PartsRead(cv, ws, "", |s| - 1);
    }
  }

  // ------------------------------------------------------------------ tokens

  /** Every token is read as what it means, holds no key, and has no blanks around it. */
  lemma TokenReads(cv: Conversions, t: Token)
    requires GoodToken(cv, t)
    ensures Scalar(cv, Written(t)) == Some(Meaning(t))
    ensures Written(t) != "" && Written(t)[0] !in SPACES && Written(t)[|Written(t)| - 1] !in SPACES
    ensures TrimSpace(Written(t)) == Written(t)
    ensures KeyAndRest(cv, Written(t)) == None
  {
    hide Scalar;
    hide KeyAndRest;
    hide TrimSpace;
    match t {
      case Quoted(text) =>
        QuotedReads(cv, text);
        QuotedHasNoKey(cv, text);
      case Plain(word) =>
        WordReads(cv, word);
        WordIsTrimmed(cv, word);
        assert word.text[|word.text| - 1] in word.text;
        NoKey(cv, word.text);
      case Flow(words) =>
        FlowReads(cv, words);
        JoinedIsPlain(cv, words);
        TrimsToItself(Written(t));
        NoKey(cv, Written(t));
    }
  }

  lemma NoKey(cv: Conversions, s: string)
    requires forall c <- s :: FlowChar(c)
    ensures KeyAndRest(cv, s) == None
  {
    NoColon(s, 0);
  }
}
