/** What the ICD-10-CM readers see of an archive: its entries, each with the node stream
  * an XmlReader that skips comments and insignificant white space yields for it. */
module XmlEvents {
  import opened Text

  /** XmlNodeType.Element, Text or CDATA, and EndElement, with the node's name or value. */
  datatype XmlEvent = Element(name: string) | Content(value: string) | EndElement(name: string)

  /** A zip entry: its full name and the events of its XML. */
  datatype ZipEntry = ZipEntry(fullName: string, events: seq<XmlEvent>)

  datatype Result<T> = Success(value: T) | Failure(error: string)

  /** s.EndsWith(p, StringComparison.OrdinalIgnoreCase). */
  predicate EndsWithIgnoreCase(s: string, p: string) {
    |p| <= |s| && Lower(s[|s| - |p|..]) == Lower(p)
  }

  /** s.Contains(p, StringComparison.OrdinalIgnoreCase). */
  predicate ContainsText(s: string, p: string) {
    exists i :: 0 <= i <= |s| - |p| && MatchesAt(s, p, i)
  }

  predicate MatchesAt(s: string, p: string, i: int) {
    0 <= i && i + |p| <= |s| && Lower(s[i..i + |p|]) == Lower(p)
  }

  /** The entry the reader opens: an XML file whose name mentions the marker. */
  predicate IsXmlEntry(e: ZipEntry, marker: string) {
    EndsWithIgnoreCase(e.fullName, ".xml") && ContainsText(e.fullName, marker)
  }

  /** archive.Entries.FirstOrDefault(e => IsXmlEntry(e, marker)). */
  function FindEntry(entries: seq<ZipEntry>, marker: string): (r: Option<ZipEntry>)
    ensures r.None? <==> forall i :: 0 <= i < |entries| ==> !IsXmlEntry(entries[i], marker)
    ensures r.Some? ==> IsXmlEntry(r.value, marker)
    ensures r.Some? ==> exists i :: (0 <= i < |entries| && entries[i] == r.value
      && forall j :: 0 <= j < i ==> !IsXmlEntry(entries[j], marker))
    decreases |entries|
  {
    if entries == [] then None
    else if IsXmlEntry(entries[0], marker) then
      assert entries[0] == entries[0];
      Some(entries[0])
    else
      var r := FindEntry(entries[1..], marker);
      if r.Some? then
        var i :| (0 <= i < |entries[1..]| && entries[1..][i] == r.value
          && forall j :: 0 <= j < i ==> !IsXmlEntry(entries[1..][j], marker));
        assert entries[i + 1] == r.value;
        assert forall j :: 0 <= j < i + 1 ==> !IsXmlEntry(entries[j], marker) by {
          forall j | 0 < j < i + 1 ensures !IsXmlEntry(entries[j], marker) {
            assert entries[j] == entries[1..][j - 1];
          }
        }
        r
      else
        assert forall i :: 0 < i < |entries| ==> entries[i] == entries[1..][i - 1];
        r
  }

  /** An element holding one text: `<tag>text</tag>`. */
  function Field(tag: string, text: string): seq<XmlEvent> {
    [Element(tag), Content(text), EndElement(tag)]
  }

  // ---------------------------------------------------------------------
  // A reader loop over a stream: the state after each node in turn

  function Fold<S>(step: (S, XmlEvent) -> S, s: S, events: seq<XmlEvent>): S
    decreases |events|
  {
    if events == [] then s else step(Fold(step, s, events[..|events| - 1]), events[|events| - 1])
  }

  lemma FoldSingle<S>(step: (S, XmlEvent) -> S, s: S, e: XmlEvent)
    ensures Fold(step, s, [e]) == step(s, e)
  {
    assert [e][..0] == [];
  }

  lemma FoldSnoc<S>(step: (S, XmlEvent) -> S, s: S, a: seq<XmlEvent>, e: XmlEvent)
    ensures Fold(step, s, a + [e]) == step(Fold(step, s, a), e)
  {
    assert (a + [e])[..|a|] == a;
  }

  /** Running two streams one after the other is running their concatenation. */
  lemma {:induction false} FoldAppend<S>(step: (S, XmlEvent) -> S, s: S, a: seq<XmlEvent>, b: seq<XmlEvent>)
    ensures Fold(step, s, a + b) == Fold(step, Fold(step, s, a), b)
    decreases |b|
  {
    if b == [] {
      assert a + b == a;
    } else {
      assert (a + b)[..|a + b| - 1] == a + b[..|b| - 1];
      FoldAppend(step, s, a, b[..|b| - 1]);
    }
  }
}
