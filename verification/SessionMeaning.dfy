/** What the parser reports after a session was written with any fields. */
module SessionMeaning {
  import opened Text
  import opened Sections
  import opened AwsParser
  import opened DocEdits
  import opened MergeWriter
  import opened ProfileWriter
  import opened ProfileKeys
  import opened ProfileMeaning
  import opened ProfileFields
  import opened EndpointOps
  import opened EndpointMeaning
  import opened ConfigEntries

  lemma {:induction false} SessionHeaderGood(name: string)
    requires GoodName(name)
    ensures GoodHeader(SsoSessionHeader(name)) && IsHeaderName(SsoSessionHeader(name))
  {
  }

  lemma {:induction false} WriteIs(contents: string, name: string, fields: seq<Field>)
    ensures var header := SsoSessionHeader(name);
            var block := ProfileBlock(header, contents, fields, []);
            WithSessionBlock(contents, name, fields)
              == if SectionOf(Chunks(contents), header).Some? then ReplaceSection(contents, header, block) else AppendBlock(contents, block)
  {
    hide Chunks, SectionOf, ProfileBlock, SsoSessionHeader;
  }

  /** The section that is written, in the meaning of the file. */
  lemma {:induction false} SessionDoc(contents: string, name: string, fields: seq<Field>, section: seq<string>)
    returns (a: seq<Section>, s: Section, s': Section, b: seq<Section>)
    requires ClosedHeaders(Chunks(contents)) && GoodName(name) && GoodFields(fields)
    requires SectionOf(Chunks(contents), SsoSessionHeader(name)) == Some(section) && section != []
    requires TidyWrite(contents, SsoSessionHeader(name), fields, [])
    ensures Doc(Chunks(contents)) == a + [s] + b
    ensures Doc(Chunks(WithSessionBlock(contents, name, fields))) == a + [s'] + b
    ensures s.header == Trim(section[0]) && s.keys == Keys(section[1..])
    ensures s'.header == SsoSessionHeader(name) && s'.keys == WrittenKeys(Keys(section[1..]), fields, [])
  {
    hide Chunks, Doc, Trim, Lower, SsoSessionHeader, Keys, GoodName, GoodHeader, HeaderIndex, BodyLength,
         ClosedHeaders, SectionOf, Endpoints, WrittenKeys, TidyFor, GoodFields, ProfileBlock, Touched, LowerAll,
         IsBracket, IsHeader, NoBrackets, EndsLine, IsBlock, ReplaceSection, AppendBlock, Visible, Overrides,
         IsHeaderName, WithSessionBlock;
    var cs, header := Chunks(contents), SsoSessionHeader(name);
    SessionHeaderGood(name);
    var c := CutOf(cs, header, section);
    SectionBounds(cs, header);
    assert section[0] == cs[c.i] && section[1..] == cs[c.i + 1..c.j];
    WrittenBlockParses(contents, header, section, fields, []);
    WrittenIs(section, fields, []);
    var block := ProfileBlock(header, contents, fields, []);
    var bs := Chunks(block);
    HeaderForm(header, bs[0]);
    BlockShape(block, header);
    ReplaceDoc(contents, header, c, block);
    WriteIs(contents, name, fields);
    a, s, s', b := Doc(cs[..c.i]), SectionFrom(cs[c.i], cs[c.i + 1..c.j]), SectionFrom(bs[0], bs[1..]), Doc(cs[c.j..]);
  }

  /** Writing a session that is there: it is read with its old keys, overridden by the
      fields, under the name it was written with, and every other entry is as it was. */
  lemma {:induction false} SessionWriteMeansMerge(contents: string, name: string, fields: seq<Field>,
          section: seq<string>,
          was: string) returns (t: nat)
    requires ClosedHeaders(Chunks(contents)) && GoodName(name) && GoodFields(fields)
    requires SectionOf(Chunks(contents), SsoSessionHeader(name)) == Some(section) && section != []
    requires HeaderKind(Trim(section[0])) == Some(SsoSession(was)) && TidyWrite(contents, SsoSessionHeader(name), fields, [])
    ensures var before, after := Parse(contents), Parse(WithSessionBlock(contents, name, fields));
            && |after| == |before| && t < |before|
            && Describes(before[t], was, true, Keys(section[1..]))
            && Describes(after[t], name, true, WrittenKeys(Keys(section[1..]), fields, []))
            && (forall i | 0 <= i < |before| && i != t :: after[i] == before[i])
  {
    hide Chunks, Doc, Trim, SsoSessionHeader, Keys, GoodName, ClosedHeaders, SectionOf, WrittenKeys, GoodFields,
         TidyWrite, Describes, HeaderKind, WithSessionBlock, Entries, ProfileFrom, EndpointsOf, UrlOf, Lower, Resolve,
         Interpret, CanonicalHeader;
    var a, s, s', b := SessionDoc(contents, name, fields, section);
    SessionKindOf(name);
    var d, d' := a + [s] + b, a + [s'] + b;
    t := |Entries(a)|;
    ReplacedSession(a, s, s', b, was, name);
    forall k ensures EndpointsOf(d', k) == EndpointsOf(d, k) { SessionEndpoints(a, s, s', b, k, was, name); }
    InterpretReplaced(d, d', t, ProfileFrom(name, true, s'.keys));
    FromDescribes(was, true, s.keys, d);
    FromDescribes(name, true, s'.keys, d);
  }

  lemma {:induction false} ReplacedSession(a: seq<Section>, s: Section, s': Section, b: seq<Section>, was: string,
          name: string)
    requires HeaderKind(s.header) == Some(SsoSession(was)) && HeaderKind(s'.header) == Some(SsoSession(name))
    ensures var t := |Entries(a)|;
            && t < |Entries(a + [s] + b)| && Entries(a + [s] + b)[t] == ProfileFrom(was, true, s.keys)
            && Entries(a + [s'] + b) == Entries(a + [s] + b)[t := ProfileFrom(name, true, s'.keys)]
  {
    hide HeaderKind, Entries, ProfileFrom;
    EntriesThree(a, s, b);
    EntriesThree(a, s', b);
  }

  lemma {:induction false} SessionEndpoints(a: seq<Section>, s: Section, s': Section, b: seq<Section>, k: string,
          was: string,
          name: string)
    requires HeaderKind(s.header) == Some(SsoSession(was)) && HeaderKind(s'.header) == Some(SsoSession(name))
    ensures EndpointsOf(a + [s'] + b, k) == EndpointsOf(a + [s] + b, k)
  {
    hide HeaderKind, EndpointsOf;
    EndpointsOfThree(a, s, b, k);
    EndpointsOfThree(a, s', b, k);
  }

  /** Writing a session that is not there: one entry more, the last, with the fields. */
  lemma {:induction false} SessionWriteAppends(contents: string, name: string, fields: seq<Field>)
    requires GoodName(name) && GoodFields(fields) && SectionOf(Chunks(contents), SsoSessionHeader(name)).None?
    ensures var before, after := Parse(contents), Parse(WithSessionBlock(contents, name, fields));
            && |after| == |before| + 1 && after[..|before|] == before
            && Describes(after[|before|], name, true, WrittenKeys(map[], fields, []))
  {
    hide Chunks, Doc, Trim, HeaderKind, SsoSessionHeader, ProfileFrom, GoodName, GoodFields, WrittenKeys, SectionOf,
         IsBlock, ProfileBlock, AppendBlock, ReplaceSection, Keys, Endpoints, Interpret, Resolve, GoodHeader, Entries,
         Describes, WithSessionBlock, CanonicalHeader, IsHeaderName;
    var header := SsoSessionHeader(name);
    SessionHeaderGood(name);
    SessionKindOf(name);
    NewBlockParses(contents, header, fields, []);
    var block := ProfileBlock(header, contents, fields, []);
    var bs := Chunks(block);
    AppendedBlockDoc(contents, header, block);
    WriteIs(contents, name, fields);
    var d := Doc(Chunks(contents));
    NewEntry(d, SectionFrom(bs[0], bs[1..]), name, true);
    FromDescribes(name, true, WrittenKeys(map[], fields, []), d);
  }
}
