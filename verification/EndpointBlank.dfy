/** A blank name in a `[services]` header: the editor writes it, and the parser does
    not know it. */
module EndpointBlank {
  import opened Text
  import opened Sections
  import opened AwsParser
  import opened MergeWriter
  import opened EndpointEditor
  import opened EndpointOps
  import opened EndpointMeaning

  /** A section without a kind adds nothing to what a file means. */
  lemma {:induction false} UnknownSection(d: seq<Section>, s: Section)
    requires HeaderKind(s.header) == None
    ensures Interpret(d + [s]) == Interpret(d)
  {
    hide Entries, EndpointsOf, HeaderKind, UrlOf, Lower;
    EntriesConcat(d, [s]);
    NoEntry(s);
    assert Entries(d) + [] == Entries(d);
    forall k ensures EndpointsOf(d + [s], k) == EndpointsOf(d, k) {
      EndpointsOfOne(d, s, k);
      assert EndpointsOf(d, k) + [] == EndpointsOf(d, k);
    }
  }

  lemma {:induction false} NoEntry(s: Section)
    requires HeaderKind(s.header) == None
    ensures Entries([s]) == []
  {
    hide HeaderKind;
    assert [s][1..] == [];
  }

  /** The header written for a blank name is no header of a `[services]` section. */
  lemma {:induction false} BlankHeaderKind()
    ensures HeaderKind(ServicesHeader("")) == None && GoodHeader(ServicesHeader(""))
  {
    hide Trim, Lower, NameAfter;
    var h := ServicesHeader("");
    assert h == "[services ]" && h[1..|h| - 1] == "services ";
    TrimPadded("", "services", " ");
    assert "" + "services" + " " == "services ";
    ServicesWord();
    BlankKind();
  }

  lemma {:induction false} ServicesWord()
    ensures Trim("services") == "services"
  {
    TrimOfTrimmed("services");
  }

  lemma {:induction false} BlankKind()
    ensures SectionKindOf("services") == None
  {
    hide Trim, Lower;
    var w := "services";
    assert w[1] == 'e' && "profile"[0] != w[0] && "sso-session"[1] != w[1];
    assert w[8..] == "";
    TrimOfTrimmed("");
    LongNotDefault(w);
  }

  lemma {:induction false} NoBlankServices(d: seq<Section>)
    ensures EndpointsOf(d, "") == []
  {
    hide HeaderKind;
    if d != [] {
      NoBlankServices(d[1..]);
      NotBlank(d[0]);
    }
  }

  lemma {:induction false} NotBlank(s: Section)
    ensures !IsServicesFor(s, "")
  {
    hide Trim, IsWhitespace;
  }

  /** No well-formed file has such a section. */
  lemma {:induction false} NoBlankSection(contents: string)
    requires WellFormed(contents)
    ensures SectionOf(Chunks(contents), ServicesHeader("")).None? && EndpointsOf(Doc(Chunks(contents)), Lower("")) == []
  {
    hide Chunks, Doc, SectionOf, WellFormed, ServicesHeader, EndpointsOf, IsServicesFor;
    NoBlankServices(Doc(Chunks(contents)));
    LowerEmpty();
    match SectionOf(Chunks(contents), ServicesHeader("")) {
      case None =>
      case Some(lines) =>
        var c := LocateServices(contents, "", lines);
        NotBlank(SectionFrom(Chunks(contents)[c.i], Chunks(contents)[c.i + 1..c.j]));
    }
  }

  /** Appending one leaves the meaning of the file. */
  lemma {:induction false} BlankAppended(contents: string, body: string)
    requires NoBrackets(Chunks(body))
    ensures Parse(AppendSection(contents, ServicesHeader(""), body)) == Parse(contents)
  {
    hide Chunks, Doc, NoBrackets, AppendSection, ServicesHeader, GoodHeader, HeaderKind, Interpret, Keys, Endpoints;
    BlankHeaderKind();
    var s := AppendDoc(contents, ServicesHeader(""), body);
    UnknownSection(Doc(Chunks(contents)), s);
  }
}
