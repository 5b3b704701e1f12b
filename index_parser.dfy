/** The ICD-10-CM alphabetic index reader: walks the index XML's node stream with a stack
  * of open `mainTerm`/`term` elements, keeps each one's first non-blank title and the last
  * text of its `code` element, and emits an alias row at each `</code>`: the code with the
  * open terms' titles joined outermost first. */
module IndexParser {
  import opened Text
  import opened Sequences
  import opened XmlEvents

  /** TermNode: the title of an open term and the code it is waiting to emit; a null
    * string is represented by "". */
  datatype TermNode = TermNode(title: string, pendingCode: string)

  const EmptyTerm := TermNode("", "")

  /** AliasRow, as this reader builds it. */
  datatype AliasRow = AliasRow(code: string, aliasText: string)

  /** The reader's state: the open terms, innermost last; the name of the element the last
    * start tag opened, or None after an end tag; and the rows emitted so far. */
  datatype State = State(stack: seq<TermNode>, current: Option<string>, rows: seq<AliasRow>)

  const Initial := State([], None, [])

  predicate IsTermElement(name: string) {
    name == "mainTerm" || name == "term"
  }

  function Top(stack: seq<TermNode>): TermNode
    requires |stack| > 0
  {
    stack[|stack| - 1]
  }

  function SetTop(stack: seq<TermNode>, node: TermNode): (r: seq<TermNode>)
    requires |stack| > 0
    ensures |r| == |stack| && Top(r) == node
    ensures forall k :: 0 <= k < |stack| - 1 ==> r[k] == stack[k]
  {
    stack[..|stack| - 1] + [node]
  }

  // ---------------------------------------------------------------------
  // BuildAliasText

  function TitleOf(node: TermNode): string {
    Trim(node.title)
  }

  predicate NonBlank(t: string) {
    !IsBlank(t)
  }

  /** The trimmed titles that are not blank, outermost first. */
  function AliasTitles(nodes: seq<TermNode>): seq<string> {
    Filter(Map(nodes, TitleOf), NonBlank)
  }

  /** BuildAliasText: those titles joined by single spaces, or "" when there are none. */
  function AliasText(nodes: seq<TermNode>): string {
    var titles := AliasTitles(nodes);
    if |titles| == 0 then "" else Join(" ", titles)
  }

  // ---------------------------------------------------------------------
  // The reader

  /** A text, already trimmed and not blank: the title when the node has none yet, or the
    * pending code, which a later code text replaces. */
  function WithText(node: TermNode, current: Option<string>, text: string): TermNode {
    if current == Some("title") && IsBlank(node.title) then node.(title := text)
    else if current == Some("code") then node.(pendingCode := text)
    else node
  }

  /** `</code>`: the innermost term's pending code is taken and cleared, and a row is
    * emitted when both the code and the alias text are not blank. */
  function CloseCode(s: State): State
    requires |s.stack| > 0
  {
    var code := Top(s.stack).pendingCode;
    var cleared := SetTop(s.stack, Top(s.stack).(pendingCode := ""));
    var aliasText := AliasText(cleared);
    State(cleared, s.current,
          if !IsBlank(code) && !IsBlank(aliasText) then s.rows + [AliasRow(Trim(code), aliasText)] else s.rows)
  }

  /** One node of the stream. */
  function Step(s: State, e: XmlEvent): State {
    match e
    case Element(name) =>
      State(if IsTermElement(name) then s.stack + [EmptyTerm] else s.stack, Some(name), s.rows)
    case Content(value) =>
      if |s.stack| == 0 || IsBlank(Trim(value)) then s
      else s.(stack := SetTop(s.stack, WithText(Top(s.stack), s.current, Trim(value))))
    case EndElement(name) =>
      var s1 := if name == "code" && |s.stack| > 0 then CloseCode(s) else s;
      var s2 := if IsTermElement(name) && |s1.stack| > 0 then s1.(stack := s1.stack[..|s1.stack| - 1]) else s1;
      s2.(current := None)
  }

  function RunFrom(s: State, events: seq<XmlEvent>): State {
    Fold(Step, s, events)
  }

  function Parse(events: seq<XmlEvent>): seq<AliasRow> {
    RunFrom(Initial, events).rows
  }

  /** ParseAliases: no rows when the archive has no index XML entry, otherwise the rows of
    * that entry's stream. */
  method ParseAliases(entries: seq<ZipEntry>) returns (rows: seq<AliasRow>)
    ensures FindEntry(entries, "index").None? ==> rows == []
    ensures FindEntry(entries, "index").Some? ==> rows == Parse(FindEntry(entries, "index").value.events)
  {
    var entry := FindEntry(entries, "index");
    if entry.None? {
      return [];
    }
    rows := ParseEvents(entry.value.events);
  }

  /** ParseAliases's reading loop. */
  method ParseEvents(events: seq<XmlEvent>) returns (rows: seq<AliasRow>)
    ensures rows == Parse(events)
  {
    var stack: seq<TermNode> := [];
    var current: Option<string> := None;
    rows := [];
    for i := 0 to |events|
      invariant State(stack, current, rows) == RunFrom(Initial, events[..i])
    {
      assert events[..i + 1] == events[..i] + [events[i]];
      FoldSnoc(Step, Initial, events[..i], events[i]);
      stack, current, rows := HandleEvent(stack, current, rows, events[i]);
    }
    assert events[..|events|] == events;
  }

  /** The body of the reading loop: one node of the stream. */
  method HandleEvent(stack: seq<TermNode>, current: Option<string>, rows: seq<AliasRow>, e: XmlEvent)
    returns (stack': seq<TermNode>, current': Option<string>, rows': seq<AliasRow>)
    ensures State(stack', current', rows') == Step(State(stack, current, rows), e)
  {
    stack', current', rows' := stack, current, rows;
    match e
    case Element(name) =>
      current' := Some(name);
      if name == "mainTerm" || name == "term" {
        stack' := stack' + [EmptyTerm];
      }
    case Content(value) =>
      if |stack'| == 0 {
        return;
      }
      var text := Trim(value);
      if IsBlank(text) {
        return;
      }
      var node := stack'[|stack'| - 1];
      if current' == Some("title") && IsBlank(node.title) {
        node := node.(title := text);
      } else if current' == Some("code") {
        node := node.(pendingCode := text);
      }
      stack' := stack'[..|stack'| - 1] + [node];
    case EndElement(name) =>
      if name == "code" && |stack'| > 0 {
        var node := stack'[|stack'| - 1];
        var code := node.pendingCode;
        stack' := stack'[..|stack'| - 1] + [node.(pendingCode := "")];
        var aliasText := AliasText(stack');
        if !IsBlank(code) && !IsBlank(aliasText) {
          rows' := rows' + [AliasRow(Trim(code), aliasText)];
        }
      }
      if name == "mainTerm" || name == "term" {
        if |stack'| > 0 {
          stack' := stack'[..|stack'| - 1];
        }
      }
      current' := None;
  }

  // ---------------------------------------------------------------------
  // BuildAliasText

  /** An inner term adds its trimmed title, when it has one, after the outer terms'. */
  lemma AliasTitlesSnoc(nodes: seq<TermNode>, n: TermNode)
    ensures AliasTitles(nodes + [n]) == AliasTitles(nodes) + (if IsBlank(n.title) then [] else [Trim(n.title)])
  {
    MapAppend(nodes, [n], TitleOf);
    FilterAppend(Map(nodes, TitleOf), Map([n], TitleOf), NonBlank);
    assert Map([n], TitleOf) == [Trim(n.title)];
    assert Filter([Trim(n.title)], NonBlank) == (if NonBlank(Trim(n.title)) then [Trim(n.title)] else []);
    TrimBlank(n.title);
  }

  /** The alias text of a stack with one more term: the outer alias text, then a single
    * space and the new term's trimmed title when it is not blank. */
  lemma AliasTextPush(nodes: seq<TermNode>, n: TermNode)
    ensures AliasText(nodes + [n])
         == if IsBlank(n.title) then AliasText(nodes)
            else if AliasTitles(nodes) == [] then Trim(n.title)
            else AliasText(nodes) + " " + Trim(n.title)
  {
    AliasTitlesSnoc(nodes, n);
    if !IsBlank(n.title) {
      var titles := AliasTitles(nodes);
      JoinSnoc(" ", titles, Trim(n.title));
      assert AliasTitles(nodes + [n]) == titles + [Trim(n.title)];
      assert |titles + [Trim(n.title)]| > 0;
      if titles == [] {
        assert titles + [Trim(n.title)] == [Trim(n.title)];
      }
    } else {
      assert AliasTitles(nodes) + [] == AliasTitles(nodes);
    }
  }

  /** Every title in the alias is a node's trimmed title, and it is not blank. */
  lemma AliasTitleMembers(nodes: seq<TermNode>, t: string)
    ensures t in AliasTitles(nodes) <==> !IsBlank(t) && exists k :: 0 <= k < |nodes| && t == Trim(nodes[k].title)
  {
    FilterMembers(Map(nodes, TitleOf), NonBlank, t);
    forall k | 0 <= k < |nodes|
      ensures Map(nodes, TitleOf)[k] == Trim(nodes[k].title)
    {
      MapAt(nodes, TitleOf, k);
    }
  }

  /** The alias text is trimmed, and blank exactly when every open term's title is. */
  lemma AliasTextShape(nodes: seq<TermNode>)
    ensures IsBlank(AliasText(nodes)) <==> forall k :: 0 <= k < |nodes| ==> IsBlank(nodes[k].title)
    ensures IsBlank(AliasText(nodes)) <==> AliasTitles(nodes) == []
    ensures Trim(AliasText(nodes)) == AliasText(nodes)
  {
    var titles := AliasTitles(nodes);
    forall k | 0 <= k < |titles|
      ensures !IsBlank(titles[k]) && Trim(titles[k]) == titles[k]
    {
      AliasTitleMembers(nodes, titles[k]);
      var j :| 0 <= j < |nodes| && titles[k] == Trim(nodes[j].title);
      TrimIdempotent(nodes[j].title);
    }
    if titles != [] {
      JoinTrimmed(" ", titles);
      AliasTitleMembers(nodes, titles[0]);
      var j :| 0 <= j < |nodes| && titles[0] == Trim(nodes[j].title);
      TrimBlank(nodes[j].title);
    } else {
      forall k | 0 <= k < |nodes|
        ensures IsBlank(nodes[k].title)
      {
        AliasTitleMembers(nodes, Trim(nodes[k].title));
        TrimBlank(nodes[k].title);
      }
    }
  }

  /** The alias text reads only the titles: replacing the innermost term's pending code
    * leaves it as it was. */
  lemma AliasIgnoresPendingCode(stack: seq<TermNode>, code: string)
    requires |stack| > 0
    ensures AliasText(SetTop(stack, Top(stack).(pendingCode := code))) == AliasText(stack)
  {
    var other := SetTop(stack, Top(stack).(pendingCode := code));
    forall k | 0 <= k < |stack|
      ensures Map(other, TitleOf)[k] == Map(stack, TitleOf)[k]
    {
      assert other[k].title == stack[k].title;
      MapAt(other, TitleOf, k);
      MapAt(stack, TitleOf, k);
    }
    assert Map(other, TitleOf) == Map(stack, TitleOf);
  }

  // ---------------------------------------------------------------------
  // One node at a time

  /** A row is emitted only at `</code>` inside a term: the innermost term's pending
    * code, trimmed, with the alias text of the open terms, when neither is blank. */
  lemma RowsOnlyAtCodeEnd(s: State, e: XmlEvent)
    ensures Step(s, e).rows
         == if e == EndElement("code") && |s.stack| > 0
               && !IsBlank(Top(s.stack).pendingCode) && !IsBlank(AliasText(s.stack))
            then s.rows + [AliasRow(Trim(Top(s.stack).pendingCode), AliasText(s.stack))]
            else s.rows
  {
    if e == EndElement("code") && |s.stack| > 0 {
      AliasIgnoresPendingCode(s.stack, "");
    }
  }

  /** `</code>` clears the innermost term's pending code and keeps the open terms. */
  lemma CodeEndClearsPending(s: State)
    requires |s.stack| > 0
    ensures |Step(s, EndElement("code")).stack| == |s.stack|
    ensures Top(Step(s, EndElement("code")).stack) == Top(s.stack).(pendingCode := "")
    ensures forall k :: 0 <= k < |s.stack| - 1 ==> Step(s, EndElement("code")).stack[k] == s.stack[k]
  {
  }

  /** An end tag with no open term changes nothing but the current element. */
  lemma EndWithoutTermIgnored(s: State, name: string)
    requires |s.stack| == 0
    ensures Step(s, EndElement(name)) == s.(current := None)
  {
  }

  /** The end tag of a term closes the innermost open one. */
  lemma TermEndPops(s: State, name: string)
    requires IsTermElement(name) && |s.stack| > 0
    ensures Step(s, EndElement(name)) == State(s.stack[..|s.stack| - 1], None, s.rows)
  {
  }

  /** Text outside every term, or blank text, is ignored. */
  lemma IgnoredText(s: State, v: string)
    requires |s.stack| == 0 || IsBlank(v)
    ensures Step(s, Content(v)) == s
  {
    TrimBlank(v);
  }

  /** A term keeps the first non-blank title it is given. */
  lemma StepKeepsTitles(s: State, e: XmlEvent, k: nat)
    requires k < |s.stack| && !IsBlank(s.stack[k].title)
    requires k < |Step(s, e).stack|
    ensures Step(s, e).stack[k].title == s.stack[k].title
  {
  }

  /** Text inside `code` replaces the innermost term's pending code, so the last such
    * text before `</code>` is the one emitted. */
  lemma CodeTextReplaces(s: State, v: string)
    requires |s.stack| > 0 && s.current == Some("code") && !IsBlank(v)
    ensures |Step(s, Content(v)).stack| == |s.stack|
    ensures Top(Step(s, Content(v)).stack) == Top(s.stack).(pendingCode := Trim(v))
  {
    TrimBlank(v);
  }

  /** Every row has a trimmed code and a trimmed alias text, neither blank. */
  predicate WellFormedRow(row: AliasRow) {
    !IsBlank(row.code) && Trim(row.code) == row.code
    && !IsBlank(row.aliasText) && Trim(row.aliasText) == row.aliasText
  }

  lemma StepKeepsRowsWellFormed(s: State, e: XmlEvent)
    requires forall k :: 0 <= k < |s.rows| ==> WellFormedRow(s.rows[k])
    ensures forall k :: 0 <= k < |Step(s, e).rows| ==> WellFormedRow(Step(s, e).rows[k])
  {
    RowsOnlyAtCodeEnd(s, e);
    if e == EndElement("code") && |s.stack| > 0 {
      var code := Top(s.stack).pendingCode;
      TrimBlank(code);
      TrimIdempotent(code);
      AliasTextShape(s.stack);
    }
  }

  /** Whatever the stream, every row the reader emits is well formed. */
  lemma {:induction false} ParsedRowsWellFormed(events: seq<XmlEvent>)
    ensures forall k :: 0 <= k < |Parse(events)| ==> WellFormedRow(Parse(events)[k])
  {
    RunKeepsRowsWellFormed(Initial, events);
  }

  lemma {:induction false} RunKeepsRowsWellFormed(s: State, events: seq<XmlEvent>)
    requires forall k :: 0 <= k < |s.rows| ==> WellFormedRow(s.rows[k])
    ensures forall k :: 0 <= k < |RunFrom(s, events).rows| ==> WellFormedRow(RunFrom(s, events).rows[k])
    decreases |events|
  {
    if events != [] {
      var init := events[..|events| - 1];
      RunKeepsRowsWellFormed(s, init);
      assert events == init + [events[|events| - 1]];
      RunSnoc(s, init, events[|events| - 1]);
      StepKeepsRowsWellFormed(RunFrom(s, init), events[|events| - 1]);
    }
  }

  /** Rows are only ever appended. */
  lemma {:induction false} RunExtendsRows(s: State, events: seq<XmlEvent>)
    ensures |s.rows| <= |RunFrom(s, events).rows| && RunFrom(s, events).rows[..|s.rows|] == s.rows
    decreases |events|
  {
    if events != [] {
      var init := events[..|events| - 1];
      RunExtendsRows(s, init);
      assert events == init + [events[|events| - 1]];
      RunSnoc(s, init, events[|events| - 1]);
      RowsOnlyAtCodeEnd(RunFrom(s, init), events[|events| - 1]);
    }
  }

  // ---------------------------------------------------------------------
  // An index document: the reader against a reference over the tree it encodes

  /** A term as the index nests it: its title, the texts of its code elements and the terms
    * nested in it. */
  datatype Term = Term(title: string, codes: seq<string>, subterms: seq<Term>)

  /** A letter of the index: its heading and its main terms. */
  datatype Letter = Letter(title: string, terms: seq<Term>)

  function CodeEvents(codes: seq<string>): seq<XmlEvent>
    decreases |codes|
  {
    if codes == [] then [] else Field("code", codes[0]) + CodeEvents(codes[1..])
  }

  /** A term's start tag and its title element. */
  function TermOpening(t: Term, tag: string): seq<XmlEvent> {
    [Element(tag)] + Field("title", t.title)
  }

  function TermEvents(t: Term, tag: string): seq<XmlEvent>
    decreases t
  {
    TermOpening(t, tag) + CodeEvents(t.codes) + TermListEvents(t.subterms, "term") + [EndElement(tag)]
  }

  function TermListEvents(ts: seq<Term>, tag: string): seq<XmlEvent>
    decreases ts
  {
    if ts == [] then [] else TermEvents(ts[0], tag) + TermListEvents(ts[1..], tag)
  }

  function LetterEvents(l: Letter): seq<XmlEvent> {
    [Element("letter")] + Field("title", l.title) + TermListEvents(l.terms, "mainTerm") + [EndElement("letter")]
  }

  function LetterListEvents(ls: seq<Letter>): seq<XmlEvent>
    decreases |ls|
  {
    if ls == [] then [] else LetterEvents(ls[0]) + LetterListEvents(ls[1..])
  }

  /** The titles on the way down to a term: the outer ones and its own trimmed title when it
    * is not blank. */
  function PathWith(path: seq<string>, title: string): seq<string> {
    if IsBlank(title) then path else path + [Trim(title)]
  }

  /** The reference: a code text under a path of titles gives one row, the trimmed code with
    * the titles joined by single spaces, unless the code is blank or the path is empty. */
  function CodeRow(path: seq<string>, code: string): seq<AliasRow> {
    if IsBlank(code) || path == [] then [] else [AliasRow(Trim(code), Join(" ", path))]
  }

  function CodeRows(path: seq<string>, codes: seq<string>): seq<AliasRow>
    decreases |codes|
  {
    if codes == [] then [] else CodeRow(path, codes[0]) + CodeRows(path, codes[1..])
  }

  /** A term's rows: those of its own codes, then those of the terms nested in it, all under
    * the path extended by its title. */
  function TermRows(path: seq<string>, t: Term): seq<AliasRow>
    decreases t
  {
    var p := PathWith(path, t.title);
    CodeRows(p, t.codes) + TermListRows(p, t.subterms)
  }

  function TermListRows(path: seq<string>, ts: seq<Term>): seq<AliasRow>
    decreases ts
  {
    if ts == [] then [] else TermRows(path, ts[0]) + TermListRows(path, ts[1..])
  }

  function LetterListRows(ls: seq<Letter>): seq<AliasRow>
    decreases |ls|
  {
    if ls == [] then [] else TermListRows([], ls[0].terms) + LetterListRows(ls[1..])
  }

  /** The reader meets the reference on a document of letters under one root element:
    * every non-blank code yields one row, in document order, whose alias is the path of
    * titles down to it. */
  lemma IndexDocument(root: string, ls: seq<Letter>)
    requires !IsTermElement(root) && root != "code"
    ensures Parse([Element(root)] + LetterListEvents(ls) + [EndElement(root)]) == LetterListRows(ls)
  {
    var s1 := Step(Initial, Element(root));
    RunSingle(Initial, Element(root));
    RunAppend(Initial, [Element(root)], LetterListEvents(ls));
    LetterListRun(s1, ls);
    RunSnoc(Initial, [Element(root)] + LetterListEvents(ls), EndElement(root));
  }

  lemma {:induction false} LetterListRun(s: State, ls: seq<Letter>)
    requires s.stack == []
    ensures RunFrom(s, LetterListEvents(ls)) == if ls == [] then s else State([], None, s.rows + LetterListRows(ls))
    decreases |ls|
  {
    if ls != [] {
      var s1 := State([], None, s.rows + TermListRows([], ls[0].terms));
      LetterListStep(s, ls);
      LetterListRun(s1, ls[1..]);
      assert LetterListRows(ls) == TermListRows([], ls[0].terms) + LetterListRows(ls[1..]);
      if ls[1..] == [] {
        assert LetterListRows(ls) == TermListRows([], ls[0].terms) + [];
      } else {
        Associative(s.rows, TermListRows([], ls[0].terms), LetterListRows(ls[1..]));
      }
    }
  }

  lemma LetterListStep(s: State, ls: seq<Letter>)
    requires s.stack == [] && ls != []
    ensures RunFrom(s, LetterListEvents(ls))
         == RunFrom(State([], None, s.rows + TermListRows([], ls[0].terms)), LetterListEvents(ls[1..]))
  {
    LetterRun(s, ls[0]);
    RunAppend(s, LetterEvents(ls[0]), LetterListEvents(ls[1..]));
  }

  /** A letter's heading lies outside every term and is ignored. */
  lemma LetterRun(s: State, l: Letter)
    requires s.stack == []
    ensures RunFrom(s, LetterEvents(l)) == State([], None, s.rows + TermListRows([], l.terms))
  {
    var s0 := State([], Some("letter"), s.rows);
    var s1 := State([], None, s.rows);
    RunSingle(s, Element("letter"));
    HeadingRun(s0, l.title);
    var a := [Element("letter")] + Field("title", l.title);
    RunAppend(s, [Element("letter")], Field("title", l.title));
    RunAppend(s, a, TermListEvents(l.terms, "mainTerm"));
    TermListRun(s1, l.terms, "mainTerm");
    assert AliasTitles([]) == [];
    RunSnoc(s, a + TermListEvents(l.terms, "mainTerm"), EndElement("letter"));
    if l.terms == [] {
      assert TermListRows([], l.terms) == [];
    }
  }

  lemma HeadingRun(s: State, title: string)
    requires s.stack == []
    ensures RunFrom(s, Field("title", title)) == State([], None, s.rows)
  {
    assert Field("title", title) == [Element("title")] + [Content(title)] + [EndElement("title")];
    var s1 := Step(s, Element("title"));
    RunSingle(s, Element("title"));
    RunAppend(s, [Element("title")], [Content(title)]);
    RunSingle(s1, Content(title));
    RunAppend(s, [Element("title")] + [Content(title)], [EndElement("title")]);
    RunSingle(s1, EndElement("title"));
  }

  /** A term's events leave the stack as they found it and append the term's reference
    * rows under the path of the open terms' titles. */
  lemma {:induction false} TermRun(s: State, t: Term, tag: string)
    requires IsTermElement(tag)
    ensures RunFrom(s, TermEvents(t, tag)) == State(s.stack, None, s.rows + TermRows(AliasTitles(s.stack), t))
    decreases t, 1
  {
    var stack := s.stack + [TermNode(Trim(t.title), "")];
    var path := PathWith(AliasTitles(s.stack), t.title);
    var head := TermOpening(t, tag) + CodeEvents(t.codes);
    var inner := TermListEvents(t.subterms, "term");
    var rows1 := s.rows + CodeRows(path, t.codes);
    var rows2 := rows1 + TermListRows(path, t.subterms);
    var mid := State(stack, None, rows1);
    PathOfPush(s.stack, t.title);
    OpenThenCodes(s, t, tag);
    assert RunFrom(s, head) == mid;
    RunAppend(s, head, inner);
    SubtermsRun(mid, t.subterms, path);
    assert RunFrom(s, head + inner) == State(stack, None, rows2);
    RunSnoc(s, head + inner, EndElement(tag));
    CloseTerm(s.stack, TermNode(Trim(t.title), ""), tag, rows2);
    assert TermEvents(t, tag) == head + inner + [EndElement(tag)];
    assert RunFrom(s, TermEvents(t, tag)) == State(s.stack, None, rows2);
    assert TermRows(AliasTitles(s.stack), t) == CodeRows(path, t.codes) + TermListRows(path, t.subterms);
    Associative(s.rows, CodeRows(path, t.codes), TermListRows(path, t.subterms));
  }

  /** The nested terms of an open term, with the path of its titles. */
  lemma {:induction false} SubtermsRun(mid: State, ts: seq<Term>, path: seq<string>)
    requires mid.current == None && path == AliasTitles(mid.stack)
    ensures RunFrom(mid, TermListEvents(ts, "term")) == State(mid.stack, None, mid.rows + TermListRows(path, ts))
    decreases ts, 4
  {
    TermListRun(mid, ts, "term");
    if ts == [] {
      assert mid.rows + TermListRows(path, ts) == mid.rows;
    }
  }

  /** A term's start tag, title and codes: its node is pushed and its codes' rows
    * appended. */
  lemma OpenThenCodes(s: State, t: Term, tag: string)
    requires IsTermElement(tag)
    ensures RunFrom(s, TermOpening(t, tag) + CodeEvents(t.codes))
         == State(s.stack + [TermNode(Trim(t.title), "")], None,
                  s.rows + CodeRows(PathWith(AliasTitles(s.stack), t.title), t.codes))
  {
    var stack := s.stack + [TermNode(Trim(t.title), "")];
    PathOfPush(s.stack, t.title);
    OpenTerm(s, t, tag);
    RunAppend(s, TermOpening(t, tag), CodeEvents(t.codes));
    CodesRun(stack, s.rows, t.codes);
  }

  lemma CloseTerm(base: seq<TermNode>, node: TermNode, tag: string, rows: seq<AliasRow>)
    requires IsTermElement(tag)
    ensures Step(State(base + [node], None, rows), EndElement(tag)) == State(base, None, rows)
  {
    assert (base + [node])[..|base|] == base;
  }

  /** The path a pushed term's title extends. */
  lemma PathOfPush(stack: seq<TermNode>, title: string)
    ensures AliasTitles(stack + [TermNode(Trim(title), "")]) == PathWith(AliasTitles(stack), title)
  {
    AliasTitlesSnoc(stack, TermNode(Trim(title), ""));
    TrimBlank(title);
    TrimIdempotent(title);
  }

  /** The start tag and the title push a node holding the trimmed title. */
  lemma OpenTerm(s: State, t: Term, tag: string)
    requires IsTermElement(tag)
    ensures RunFrom(s, TermOpening(t, tag)) == State(s.stack + [TermNode(Trim(t.title), "")], None, s.rows)
  {
    var s0 := State(s.stack + [EmptyTerm], Some(tag), s.rows);
    RunSingle(s, Element(tag));
    TitleRun(s0, s.stack, t.title);
    RunAppend(s, [Element(tag)], Field("title", t.title));
  }

  lemma TitleRun(s: State, base: seq<TermNode>, title: string)
    requires s.stack == base + [EmptyTerm]
    ensures RunFrom(s, Field("title", title)) == State(base + [TermNode(Trim(title), "")], None, s.rows)
  {
    assert Field("title", title) == [Element("title")] + [Content(title)] + [EndElement("title")];
    var s1 := Step(s, Element("title"));
    var s2 := Step(s1, Content(title));
    TrimBlank(title);
    assert s2.stack == base + [TermNode(Trim(title), "")];
    RunSingle(s, Element("title"));
    RunAppend(s, [Element("title")], [Content(title)]);
    RunSingle(s1, Content(title));
    RunAppend(s, [Element("title")] + [Content(title)], [EndElement("title")]);
    RunSingle(s2, EndElement("title"));
  }

  /** The code elements of an open term with no pending code append their reference rows
    * and leave the open terms as they were. */
  lemma {:induction false} CodesRun(stack: seq<TermNode>, rows: seq<AliasRow>, codes: seq<string>)
    requires |stack| > 0 && Top(stack).pendingCode == ""
    ensures RunFrom(State(stack, None, rows), CodeEvents(codes))
         == State(stack, None, rows + CodeRows(AliasTitles(stack), codes))
    decreases |codes|
  {
    var path := AliasTitles(stack);
    if codes == [] {
      assert rows + CodeRows(path, codes) == rows;
    } else {
      var rows1 := rows + CodeRow(path, codes[0]);
      CodeRun(stack, rows, codes[0]);
      RunAppend(State(stack, None, rows), Field("code", codes[0]), CodeEvents(codes[1..]));
      CodesRun(stack, rows1, codes[1..]);
      assert CodeRows(path, codes) == CodeRow(path, codes[0]) + CodeRows(path, codes[1..]);
      Associative(rows, CodeRow(path, codes[0]), CodeRows(path, codes[1..]));
    }
  }

  /** One code element emits the reference row of its text. */
  lemma CodeRun(stack: seq<TermNode>, rows: seq<AliasRow>, code: string)
    requires |stack| > 0 && Top(stack).pendingCode == ""
    ensures RunFrom(State(stack, None, rows), Field("code", code))
         == State(stack, None, rows + CodeRow(AliasTitles(stack), code))
  {
    var s := State(stack, None, rows);
    var s1 := State(stack, Some("code"), rows);
    var s2 := State(SetTop(stack, Top(stack).(pendingCode := PendingOf(code))), Some("code"), rows);
    var s3 := State(stack, None, rows + Emitted(stack, PendingOf(code)));
    assert Step(s, Element("code")) == s1;
    CodeText(stack, rows, code);
    CloseCodeStep(stack, rows, PendingOf(code));
    RunThree(s, Element("code"), Content(code), EndElement("code"), s1, s2, s3);
    assert Field("code", code) == [Element("code"), Content(code), EndElement("code")];
    CodeRowOf(stack, code);
  }

  /** Three nodes in turn. */
  lemma RunThree(s: State, e1: XmlEvent, e2: XmlEvent, e3: XmlEvent, s1: State, s2: State, s3: State)
    requires Step(s, e1) == s1 && Step(s1, e2) == s2 && Step(s2, e3) == s3
    ensures RunFrom(s, [e1, e2, e3]) == s3
  {
    assert [e1, e2, e3] == [e1, e2] + [e3];
    assert [e1, e2] == [e1] + [e2];
    RunSingle(s, e1);
    RunSnoc(s, [e1], e2);
    RunSnoc(s, [e1, e2], e3);
  }

  /** The pending code a code text leaves. */
  function PendingOf(code: string): string {
    if IsBlank(code) then "" else Trim(code)
  }

  /** The row `</code>` emits for a pending code under the open terms. */
  function Emitted(stack: seq<TermNode>, pending: string): seq<AliasRow> {
    if !IsBlank(pending) && !IsBlank(AliasText(stack)) then [AliasRow(Trim(pending), AliasText(stack))] else []
  }

  /** The text of a code element becomes the pending code, trimmed, unless it is blank. */
  lemma CodeText(stack: seq<TermNode>, rows: seq<AliasRow>, code: string)
    requires |stack| > 0 && Top(stack).pendingCode == ""
    ensures Step(State(stack, Some("code"), rows), Content(code))
         == State(SetTop(stack, Top(stack).(pendingCode := PendingOf(code))), Some("code"), rows)
  {
    TrimBlank(code);
    if IsBlank(code) {
      assert SetTop(stack, Top(stack)) == stack;
    }
  }

  /** `</code>` takes the pending code back out, leaving the stack as before it was set. */
  lemma CloseCodeStep(stack: seq<TermNode>, rows: seq<AliasRow>, pending: string)
    requires |stack| > 0 && Top(stack).pendingCode == ""
    ensures Step(State(SetTop(stack, Top(stack).(pendingCode := pending)), Some("code"), rows), EndElement("code"))
         == State(stack, None, rows + Emitted(stack, pending))
  {
    var filled := SetTop(stack, Top(stack).(pendingCode := pending));
    assert SetTop(filled, Top(filled).(pendingCode := "")) == stack;
    if Emitted(stack, pending) == [] {
      assert rows + Emitted(stack, pending) == rows;
    }
  }

  lemma CodeRowOf(stack: seq<TermNode>, code: string)
    ensures Emitted(stack, PendingOf(code)) == CodeRow(AliasTitles(stack), code)
  {
    AliasTextShape(stack);
    TrimBlank(code);
    TrimIdempotent(code);
  }

  lemma {:induction false} TermListRun(s: State, ts: seq<Term>, tag: string)
    requires IsTermElement(tag)
    ensures RunFrom(s, TermListEvents(ts, tag))
         == if ts == [] then s else State(s.stack, None, s.rows + TermListRows(AliasTitles(s.stack), ts))
    decreases ts, 3
  {
    if ts != [] {
      var path := AliasTitles(s.stack);
      var s1 := State(s.stack, None, s.rows + TermRows(path, ts[0]));
      TermListStep(s, ts, tag);
      TermListRun(s1, ts[1..], tag);
      assert TermListRows(path, ts) == TermRows(path, ts[0]) + TermListRows(path, ts[1..]);
      if ts[1..] == [] {
        assert TermListRows(path, ts) == TermRows(path, ts[0]) + [];
      } else {
        Associative(s.rows, TermRows(path, ts[0]), TermListRows(path, ts[1..]));
      }
    }
  }

  /** The first term of a list runs on its own. */
  lemma {:induction false} TermListStep(s: State, ts: seq<Term>, tag: string)
    requires ts != [] && IsTermElement(tag)
    ensures RunFrom(s, TermListEvents(ts, tag))
         == RunFrom(State(s.stack, None, s.rows + TermRows(AliasTitles(s.stack), ts[0])), TermListEvents(ts[1..], tag))
    decreases ts, 2
  {
    TermRun(s, ts[0], tag);
    RunAppend(s, TermEvents(ts[0], tag), TermListEvents(ts[1..], tag));
  }

  lemma RunSingle(s: State, e: XmlEvent)
    ensures RunFrom(s, [e]) == Step(s, e)
  {
    FoldSingle(Step, s, e);
  }

  lemma RunSnoc(s: State, a: seq<XmlEvent>, e: XmlEvent)
    ensures RunFrom(s, a + [e]) == Step(RunFrom(s, a), e)
  {
    FoldSnoc(Step, s, a, e);
  }

  lemma RunAppend(s: State, a: seq<XmlEvent>, b: seq<XmlEvent>)
    ensures RunFrom(s, a + b) == RunFrom(RunFrom(s, a), b)
  {
    FoldAppend(Step, s, a, b);
  }
}
