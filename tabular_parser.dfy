/** The ICD-10-CM tabular reader: walks the tabular XML's node stream with a stack of open
  * `diag` elements, fills each one's code and descriptions from the first non-blank text
  * of its `name`, `desc` and `longdesc` elements, and emits a concept row when a `diag`
  * with a code closes. */
module TabularParser {
  import opened Text
  import opened XmlEvents

  const TabularMissing := "Tabular XML not found in input zip."

  /** DiagNode: the fields of an open diag; a null string is represented by "". */
  datatype DiagNode = DiagNode(code: string, shortDesc: string, longDesc: string, hasChild: bool)

  const EmptyNode := DiagNode("", "", "", false)

  /** ConceptRow. */
  datatype ConceptRow = ConceptRow(code: string, shortDesc: string, longDesc: string,
                                   isHeader: bool, isBillable: bool)

  /** The reader's state: the open diags, innermost last; the name of the element the
    * last start tag opened, or None after an end tag; and the rows emitted so far. */
  datatype State = State(stack: seq<DiagNode>, current: Option<string>, rows: seq<ConceptRow>)

  const Initial := State([], None, [])

  function Top(stack: seq<DiagNode>): DiagNode
    requires |stack| > 0
  {
    stack[|stack| - 1]
  }

  /** The stack with its innermost node replaced. */
  function SetTop(stack: seq<DiagNode>, node: DiagNode): (r: seq<DiagNode>)
    requires |stack| > 0
    ensures |r| == |stack| && Top(r) == node
    ensures forall k :: 0 <= k < |stack| - 1 ==> r[k] == stack[k]
  {
    stack[..|stack| - 1] + [node]
  }

  /** The stack a new diag finds: its parent, if any, marked as having a child. */
  function MarkChild(stack: seq<DiagNode>): (r: seq<DiagNode>)
    ensures |r| == |stack|
    ensures stack == [] ==> r == []
    ensures |stack| > 0 ==> Top(r) == Top(stack).(hasChild := true)
    ensures |stack| > 0 ==> r[..|r| - 1] == stack[..|stack| - 1]
  {
    if |stack| > 0 then SetTop(stack, Top(stack).(hasChild := true)) else stack
  }

  /** A text, already trimmed and not blank, stored in the field its element names when
    * that field is still blank. */
  function WithText(node: DiagNode, current: Option<string>, text: string): DiagNode {
    if current == Some("name") && IsBlank(node.code) then node.(code := text)
    else if current == Some("desc") && IsBlank(node.shortDesc) then node.(shortDesc := text)
    else if current == Some("longdesc") && IsBlank(node.longDesc) then node.(longDesc := text)
    else node
  }

  /** The row a closed diag yields: the short description falls back to the long one and
    * the long one to the short one; every part is trimmed. */
  function RowOf(node: DiagNode): ConceptRow {
    var shortDesc := if IsBlank(node.shortDesc) then node.longDesc else node.shortDesc;
    var longDesc := if IsBlank(node.longDesc) then shortDesc else node.longDesc;
    ConceptRow(Trim(node.code), Trim(shortDesc), Trim(longDesc), node.hasChild, !node.hasChild)
  }

  /** One node of the stream. */
  function Step(s: State, e: XmlEvent): State {
    match e
    case Element(name) =>
      if name == "diag" then State(MarkChild(s.stack) + [EmptyNode], Some(name), s.rows)
      else s.(current := Some(name))
    case Content(value) =>
      if |s.stack| == 0 || IsBlank(Trim(value)) then s
      else s.(stack := SetTop(s.stack, WithText(Top(s.stack), s.current, Trim(value))))
    case EndElement(name) =>
      if name == "diag" && |s.stack| > 0 then
        var node := Top(s.stack);
        var popped := s.stack[..|s.stack| - 1];
        if IsBlank(node.code) then State(popped, None, s.rows)
        else State(popped, None, s.rows + [RowOf(node)])
      else s.(current := None)
  }

  /** The state after the events, from s. */
  function RunFrom(s: State, events: seq<XmlEvent>): State {
    Fold(Step, s, events)
  }

  /** The rows of a whole stream. */
  function Parse(events: seq<XmlEvent>): seq<ConceptRow> {
    RunFrom(Initial, events).rows
  }

  /** ParseConcepts: fails when the archive has no tabular XML entry, otherwise yields the
    * rows of that entry's stream. */
  method ParseConcepts(entries: seq<ZipEntry>) returns (r: Result<seq<ConceptRow>>)
    ensures FindEntry(entries, "tabular").None? ==> r == Failure(TabularMissing)
    ensures FindEntry(entries, "tabular").Some? ==> r == Success(Parse(FindEntry(entries, "tabular").value.events))
  {
    var entry := FindEntry(entries, "tabular");
    if entry.None? {
      return Failure(TabularMissing);
    }
    var rows := ParseEvents(entry.value.events);
    return Success(rows);
  }

  /** ParseConcepts's reading loop. */
  method ParseEvents(events: seq<XmlEvent>) returns (rows: seq<ConceptRow>)
    ensures rows == Parse(events)
  {
    var stack: seq<DiagNode> := [];
    var current: Option<string> := None;
    rows := [];
    for i := 0 to |events|
      invariant State(stack, current, rows) == RunFrom(Initial, events[..i])
    {
      assert events[..i + 1] == events[..i] + [events[i]];
      RunSnoc(Initial, events[..i], events[i]);
      stack, current, rows := HandleEvent(stack, current, rows, events[i]);
    }
    assert events[..|events|] == events;
  }

  /** The body of the reading loop: one node of the stream. */
  method HandleEvent(stack: seq<DiagNode>, current: Option<string>, rows: seq<ConceptRow>, e: XmlEvent)
    returns (stack': seq<DiagNode>, current': Option<string>, rows': seq<ConceptRow>)
    ensures State(stack', current', rows') == Step(State(stack, current, rows), e)
  {
    stack', current', rows' := stack, current, rows;
    match e
    case Element(name) =>
      current' := Some(name);
      if name == "diag" {
        if |stack'| > 0 {
          var parent := stack'[|stack'| - 1];
          stack' := stack'[..|stack'| - 1] + [parent.(hasChild := true)];
        }
        stack' := stack' + [EmptyNode];
      }
    case Content(value) =>
      if |stack'| == 0 {
        return;
      }
      var text := Trim(value);
      if IsBlank(text) {
        return;
      }
      var node := stack'[|stack'| - 1];
      if current' == Some("name") && IsBlank(node.code) {
        node := node.(code := text);
      } else if current' == Some("desc") && IsBlank(node.shortDesc) {
        node := node.(shortDesc := text);
      } else if current' == Some("longdesc") && IsBlank(node.longDesc) {
        node := node.(longDesc := text);
      }
      stack' := stack'[..|stack'| - 1] + [node];
    case EndElement(name) =>
      if name == "diag" && |stack'| > 0 {
        var node := stack'[|stack'| - 1];
        stack' := stack'[..|stack'| - 1];
        if IsBlank(node.code) {
          current' := None;
          return;
        }
        var shortDesc := if IsBlank(node.shortDesc) then node.longDesc else node.shortDesc;
        var longDesc := if IsBlank(node.longDesc) then shortDesc else node.longDesc;
        var isHeader := node.hasChild;
        rows' := rows' + [ConceptRow(Trim(node.code), Trim(shortDesc), Trim(longDesc), isHeader, !isHeader)];
      }
      current' := None;
  }

  // ---------------------------------------------------------------------
  // Properties of every stream

  /** No white space at either end. */
  predicate Trimmed(s: string) {
    s == [] || (!IsWhiteSpace(s[0]) && !IsWhiteSpace(s[|s| - 1]))
  }

  /** A row as the reader emits it: a non-blank code, every part trimmed, billable exactly
    * when not a header, and the two descriptions blank together or not at all. */
  predicate WellFormedRow(r: ConceptRow) {
    !IsBlank(r.code) && Trimmed(r.code) && Trimmed(r.shortDesc) && Trimmed(r.longDesc)
    && r.isBillable == !r.isHeader && (IsBlank(r.shortDesc) <==> IsBlank(r.longDesc))
  }

  lemma RowOfWellFormed(node: DiagNode)
    requires !IsBlank(node.code)
    ensures WellFormedRow(RowOf(node))
  {
    var r := RowOf(node);
    assert Trimmed(r.code) && Trimmed(r.shortDesc) && Trimmed(r.longDesc) by {
      TrimmedTrim(node.code);
      TrimmedTrim(if IsBlank(node.shortDesc) then node.longDesc else node.shortDesc);
      TrimmedTrim(r.longDesc);
    }
    assert !IsBlank(r.code) by {
      TrimBlank(node.code);
    }
    DescriptionsBlankTogether(node);
  }

  lemma TrimmedTrim(s: string)
    ensures Trimmed(Trim(s))
  {
  }

  /** The fallbacks leave both descriptions blank or neither. */
  lemma DescriptionsBlankTogether(node: DiagNode)
    ensures IsBlank(RowOf(node).shortDesc) <==> IsBlank(RowOf(node).longDesc)
  {
    var shortDesc := if IsBlank(node.shortDesc) then node.longDesc else node.shortDesc;
    var longDesc := if IsBlank(node.longDesc) then shortDesc else node.longDesc;
    assert IsBlank(shortDesc) <==> IsBlank(longDesc);
    TrimBlank(shortDesc);
    TrimBlank(longDesc);
  }

  /** Every row of every stream is well formed. */
  lemma {:induction false} ParsedRowsWellFormed(s: State, events: seq<XmlEvent>)
    requires forall i :: 0 <= i < |s.rows| ==> WellFormedRow(s.rows[i])
    ensures forall i :: 0 <= i < |RunFrom(s, events).rows| ==> WellFormedRow(RunFrom(s, events).rows[i])
    decreases |events|
  {
    if events != [] {
      var prefix := events[..|events| - 1];
      ParsedRowsWellFormed(s, prefix);
      StepKeepsRowsWellFormed(RunFrom(s, prefix), events[|events| - 1]);
      assert events == prefix + [events[|events| - 1]];
      RunSnoc(s, prefix, events[|events| - 1]);
    }
  }

  lemma StepKeepsRowsWellFormed(s: State, e: XmlEvent)
    requires forall i :: 0 <= i < |s.rows| ==> WellFormedRow(s.rows[i])
    ensures forall i :: 0 <= i < |Step(s, e).rows| ==> WellFormedRow(Step(s, e).rows[i])
  {
    if e.EndElement? && e.name == "diag" && |s.stack| > 0 && !IsBlank(Top(s.stack).code) {
      RowOfWellFormed(Top(s.stack));
    }
  }

  /** Rows are only ever appended, one at the end tag of a diag whose code is not blank. */
  lemma RowsOnlyAtCodedDiagEnd(s: State, e: XmlEvent)
    ensures var closes := e.EndElement? && e.name == "diag" && |s.stack| > 0 && !IsBlank(Top(s.stack).code);
      Step(s, e).rows == s.rows + (if closes then [RowOf(Top(s.stack))] else [])
  {
  }

  /** A field, once filled with a non-blank text, is never overwritten, and a node marked
    * as having a child stays marked, for every node that stays open. */
  predicate Keeps(a: DiagNode, b: DiagNode) {
    (!IsBlank(a.code) ==> b.code == a.code) && (!IsBlank(a.shortDesc) ==> b.shortDesc == a.shortDesc)
    && (!IsBlank(a.longDesc) ==> b.longDesc == a.longDesc) && (a.hasChild ==> b.hasChild)
  }

  lemma StepKeepsFilledFields(s: State, e: XmlEvent)
    ensures forall k :: 0 <= k < |s.stack| && k < |Step(s, e).stack| ==> Keeps(s.stack[k], Step(s, e).stack[k])
  {
  }

  /** Text is only ever stored in the innermost open diag. */
  lemma TextGoesToInnermost(s: State, v: string)
    requires |s.stack| > 0
    ensures |Step(s, Content(v)).stack| == |s.stack|
    ensures forall k :: 0 <= k < |s.stack| - 1 ==> Step(s, Content(v)).stack[k] == s.stack[k]
  {
  }

  /** Text outside every diag, and white space anywhere, changes nothing. */
  lemma IgnoredText(s: State, v: string)
    requires |s.stack| == 0 || IsBlank(v)
    ensures Step(s, Content(v)) == s
  {
    TrimBlank(v);
  }

  /** Text right after an end tag is dropped, whatever element it lies in. */
  lemma TextAfterEndTagDropped(s: State, name: string, v: string)
    ensures var t := Step(s, EndElement(name)); Step(t, Content(v)) == t
  {
    EndTagClearsElement(s, name);
    TextWithoutElement(Step(s, EndElement(name)), v);
  }

  lemma EndTagClearsElement(s: State, name: string)
    ensures Step(s, EndElement(name)).current == None
  {
  }

  lemma TextWithoutElement(t: State, v: string)
    requires t.current == None
    ensures Step(t, Content(v)) == t
  {
    if |t.stack| > 0 && !IsBlank(Trim(v)) {
      assert WithText(Top(t.stack), None, Trim(v)) == Top(t.stack);
      assert SetTop(t.stack, Top(t.stack)) == t.stack;
    }
  }

  // ---------------------------------------------------------------------
  // A tabular document: the reader against a reference over the tree it encodes

  /** A diag as the tabular file nests it: its name, desc and longdesc texts and the diags
    * nested in it. */
  datatype Diag = Diag(name: string, desc: string, longdesc: string, children: seq<Diag>)

  /** A diag's start tag and its field elements. */
  function Opening(d: Diag): seq<XmlEvent> {
    [Element("diag")] + Field("name", d.name) + Field("desc", d.desc) + Field("longdesc", d.longdesc)
  }

  function DiagEvents(d: Diag): seq<XmlEvent>
    decreases d
  {
    Opening(d) + DiagListEvents(d.children) + [EndElement("diag")]
  }

  function DiagListEvents(ds: seq<Diag>): seq<XmlEvent>
    decreases ds
  {
    if ds == [] then [] else DiagEvents(ds[0]) + DiagListEvents(ds[1..])
  }

  /** The descriptions a diag should get: the short one from desc, or longdesc when desc is
    * blank; the long one from longdesc, or the short one when longdesc is blank. */
  function ShortOf(d: Diag): string {
    if IsBlank(d.desc) then Trim(d.longdesc) else Trim(d.desc)
  }

  function LongOf(d: Diag): string {
    if IsBlank(d.longdesc) then ShortOf(d) else Trim(d.longdesc)
  }

  /** The reference: each diag with a non-blank name yields one row, after the rows of the
    * diags nested in it, and is a header exactly when it has nested diags. */
  function DiagRows(d: Diag): seq<ConceptRow>
    decreases d
  {
    DiagListRows(d.children) +
    (if IsBlank(d.name) then []
     else [ConceptRow(Trim(d.name), ShortOf(d), LongOf(d), |d.children| > 0, |d.children| == 0)])
  }

  function DiagListRows(ds: seq<Diag>): seq<ConceptRow>
    decreases ds
  {
    if ds == [] then [] else DiagRows(ds[0]) + DiagListRows(ds[1..])
  }

  /** The reader meets the reference on a document of top-level diags under one root
    * element. */
  lemma TabularDocument(root: string, ds: seq<Diag>)
    requires root != "diag"
    ensures Parse([Element(root)] + DiagListEvents(ds) + [EndElement(root)]) == DiagListRows(ds)
  {
    var s1 := Step(Initial, Element(root));
    RunSingle(Initial, Element(root));
    RunAppend(Initial, [Element(root)], DiagListEvents(ds));
    DiagListRun(s1, ds);
    RunAppend(Initial, [Element(root)] + DiagListEvents(ds), [EndElement(root)]);
    RunSingle(RunFrom(Initial, [Element(root)] + DiagListEvents(ds)), EndElement(root));
  }

  /** A diag's events leave the stack as they found it, its parent marked, and append the
    * diag's reference rows. */
  lemma {:induction false} DiagRun(s: State, d: Diag)
    ensures RunFrom(s, DiagEvents(d)) == State(MarkChild(s.stack), None, s.rows + DiagRows(d))
    decreases d, 1
  {
    var inner := DiagListEvents(d.children);
    var node := DiagNode(Trim(d.name), Trim(d.desc), Trim(d.longdesc), false);
    var s1 := State(MarkChild(s.stack) + [node], None, s.rows);
    OpenThenInner(s, d, inner);
    ChildrenRun(s1, d.children, MarkChild(s.stack), node);
    RunSnoc(s, Opening(d) + inner, EndElement("diag"));
    CloseDiag(d, MarkChild(s.stack), node.(hasChild := |d.children| > 0), s.rows + DiagListRows(d.children));
  }

  lemma OpenThenInner(s: State, d: Diag, inner: seq<XmlEvent>)
    ensures RunFrom(s, Opening(d) + inner)
         == RunFrom(State(MarkChild(s.stack) + [DiagNode(Trim(d.name), Trim(d.desc), Trim(d.longdesc), false)], None, s.rows), inner)
  {
    OpenDiag(s, d);
    RunAppend(s, Opening(d), inner);
  }

  lemma RunSnoc(s: State, a: seq<XmlEvent>, e: XmlEvent)
    ensures RunFrom(s, a + [e]) == Step(RunFrom(s, a), e)
  {
    FoldSnoc(Step, s, a, e);
  }

  /** The nested diags of an open node mark it when there are any and append their rows. */
  lemma {:induction false} ChildrenRun(s1: State, ds: seq<Diag>, base: seq<DiagNode>, node: DiagNode)
    requires s1 == State(base + [node], None, s1.rows)
    ensures RunFrom(s1, DiagListEvents(ds))
         == State(base + [if ds == [] then node else node.(hasChild := true)], None, s1.rows + DiagListRows(ds))
    decreases ds, 3
  {
    DiagListRun(s1, ds);
    if ds != [] {
      assert MarkChild(base + [node]) == base + [node.(hasChild := true)] by {
        assert (base + [node])[..|base|] == base;
      }
    }
  }

  /** The end tag pops the node and emits the reference row when the name is not blank. */
  lemma CloseDiag(d: Diag, base: seq<DiagNode>, closed: DiagNode, rows: seq<ConceptRow>)
    requires closed == DiagNode(Trim(d.name), Trim(d.desc), Trim(d.longdesc), |d.children| > 0)
    ensures Step(State(base + [closed], None, rows), EndElement("diag"))
         == State(base, None, rows + (if IsBlank(d.name) then []
              else [ConceptRow(Trim(d.name), ShortOf(d), LongOf(d), |d.children| > 0, |d.children| == 0)]))
  {
    StepEndDiag(base, closed, rows);
    ClosedRows(d, closed);
  }

  lemma StepEndDiag(base: seq<DiagNode>, node: DiagNode, rows: seq<ConceptRow>)
    ensures Step(State(base + [node], None, rows), EndElement("diag"))
         == State(base, None, rows + (if IsBlank(node.code) then [] else [RowOf(node)]))
  {
    assert (base + [node])[..|base|] == base;
  }

  lemma ClosedRows(d: Diag, closed: DiagNode)
    requires closed == DiagNode(Trim(d.name), Trim(d.desc), Trim(d.longdesc), |d.children| > 0)
    ensures (if IsBlank(closed.code) then [] else [RowOf(closed)])
         == (if IsBlank(d.name) then []
             else [ConceptRow(Trim(d.name), ShortOf(d), LongOf(d), |d.children| > 0, |d.children| == 0)])
  {
    TrimBlank(d.name);
    if !IsBlank(d.name) {
      ClosedRow(d, closed);
    }
  }

  lemma {:induction false} DiagListRun(s: State, ds: seq<Diag>)
    ensures RunFrom(s, DiagListEvents(ds))
         == if ds == [] then s else State(MarkChild(s.stack), None, s.rows + DiagListRows(ds))
    decreases ds, 2
  {
    if ds != [] {
      var s1 := State(MarkChild(s.stack), None, s.rows + DiagRows(ds[0]));
      DiagListStep(s, ds);
      DiagListRun(s1, ds[1..]);
      DiagListJoin(s, ds, RunFrom(s1, DiagListEvents(ds[1..])));
    }
  }

  /** The first diag of a list runs on its own. */
  lemma {:induction false} DiagListStep(s: State, ds: seq<Diag>)
    requires ds != []
    ensures RunFrom(s, DiagListEvents(ds))
         == RunFrom(State(MarkChild(s.stack), None, s.rows + DiagRows(ds[0])), DiagListEvents(ds[1..]))
    decreases ds, 1
  {
    DiagRun(s, ds[0]);
    RunAppend(s, DiagEvents(ds[0]), DiagListEvents(ds[1..]));
  }

  /** The state after the rest of the list, put together with the first diag's rows. */
  lemma DiagListJoin(s: State, ds: seq<Diag>, t: State)
    requires ds != []
    requires t == if ds[1..] == [] then State(MarkChild(s.stack), None, s.rows + DiagRows(ds[0]))
                  else State(MarkChild(MarkChild(s.stack)), None, s.rows + DiagRows(ds[0]) + DiagListRows(ds[1..]))
    ensures t == State(MarkChild(s.stack), None, s.rows + DiagListRows(ds))
  {
    var rows := s.rows + DiagRows(ds[0]);
    if ds[1..] == [] {
      assert rows == s.rows + DiagListRows(ds) by {
        assert DiagListRows(ds) == DiagRows(ds[0]) + [];
      }
    } else {
      assert MarkChild(MarkChild(s.stack)) == MarkChild(s.stack) by {
        MarkChildTwice(s.stack);
      }
      assert rows + DiagListRows(ds[1..]) == s.rows + DiagListRows(ds) by {
        assert DiagListRows(ds) == DiagRows(ds[0]) + DiagListRows(ds[1..]);
      }
    }
  }

  /** The opening tag and the three fields push a node holding the trimmed texts. */
  lemma OpenDiag(s: State, d: Diag)
    ensures RunFrom(s, Opening(d))
         == State(MarkChild(s.stack) + [DiagNode(Trim(d.name), Trim(d.desc), Trim(d.longdesc), false)], None, s.rows)
  {
    var base := MarkChild(s.stack);
    var s0 := State(base + [EmptyNode], Some("diag"), s.rows);
    RunSingle(s, Element("diag"));
    var n1 := EmptyNode.(code := Trim(d.name));
    var n2 := n1.(shortDesc := Trim(d.desc));
    var n3 := n2.(longDesc := Trim(d.longdesc));
    FieldRun(s0, base, EmptyNode, "name", d.name, n1);
    FieldRun(State(base + [n1], None, s.rows), base, n1, "desc", d.desc, n2);
    FieldRun(State(base + [n2], None, s.rows), base, n2, "longdesc", d.longdesc, n3);
    var a := [Element("diag")];
    RunAppend(s, a, Field("name", d.name));
    RunAppend(s, a + Field("name", d.name), Field("desc", d.desc));
    RunAppend(s, a + Field("name", d.name) + Field("desc", d.desc), Field("longdesc", d.longdesc));
  }

  /** One field element fills its still-empty field with the trimmed text. */
  lemma FieldRun(s: State, base: seq<DiagNode>, node: DiagNode, tag: string, text: string, filled: DiagNode)
    requires s.stack == base + [node]
    requires (tag == "name" && node.code == "" && filled == node.(code := Trim(text)))
          || (tag == "desc" && node.shortDesc == "" && filled == node.(shortDesc := Trim(text)))
          || (tag == "longdesc" && node.longDesc == "" && filled == node.(longDesc := Trim(text)))
    ensures RunFrom(s, Field(tag, text)) == State(base + [filled], None, s.rows)
  {
    var s1 := Step(s, Element(tag));
    var s2 := Step(s1, Content(text));
    TrimBlank(text);
    if IsBlank(Trim(text)) {
      assert Trim(text) == [];
      assert filled == node;
    } else {
      assert s2.stack == base + [filled];
    }
    assert Field(tag, text) == [Element(tag)] + [Content(text)] + [EndElement(tag)];
    RunSingle(s, Element(tag));
    RunAppend(s, [Element(tag)], [Content(text)]);
    RunSingle(s1, Content(text));
    RunAppend(s, [Element(tag)] + [Content(text)], [EndElement(tag)]);
    RunSingle(s2, EndElement(tag));
  }

  /** The row of the closed node is the reference row. */
  lemma ClosedRow(d: Diag, closed: DiagNode)
    requires closed == DiagNode(Trim(d.name), Trim(d.desc), Trim(d.longdesc), |d.children| > 0)
    ensures RowOf(closed) == ConceptRow(Trim(d.name), ShortOf(d), LongOf(d), |d.children| > 0, |d.children| == 0)
  {
    TrimBlank(d.desc);
    TrimBlank(d.longdesc);
    TrimIdempotent(d.name);
    TrimIdempotent(d.desc);
    TrimIdempotent(d.longdesc);
  }

  lemma MarkChildTwice(stack: seq<DiagNode>)
    ensures MarkChild(MarkChild(stack)) == MarkChild(stack)
  {
  }

  lemma RunSingle(s: State, e: XmlEvent)
    ensures RunFrom(s, [e]) == Step(s, e)
  {
    FoldSingle(Step, s, e);
  }

  lemma RunAppend(s: State, a: seq<XmlEvent>, b: seq<XmlEvent>)
    ensures RunFrom(s, a + b) == RunFrom(RunFrom(s, a), b)
  {
    FoldAppend(Step, s, a, b);
  }
}
