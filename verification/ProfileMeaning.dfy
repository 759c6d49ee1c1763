/** What the parser reports after a profile was written with any fields. */
module ProfileMeaning {
  import opened Text
  import opened Sections
  import opened AwsParser
  import opened DocEdits
  import opened MergeWriter
  import opened ProfileWriter
  import opened ProfileKeys
  import opened EndpointOps
  import opened EndpointMeaning

  /** What the parser reads from the section of `header`. */
  function SectionKeys(contents: string, header: string): map<string, string> {
    match SectionOf(Chunks(contents), header)
    case None => map[]
    case Some(section) => if section == [] then map[] else Keys(section[1..])
  }

  /** The nested lines of the section stay out of the way of the keys written. */
  predicate TidyWrite(contents: string, header: string, fields: seq<Field>, removeKeys: seq<string>) {
    match SectionOf(Chunks(contents), header)
    case None => true
    case Some(section) => section != [] ==> TidyFor(section[1..], None, Touched(fields, LowerAll(removeKeys)))
  }

  function WrittenKeys(keys: map<string, string>, fields: seq<Field>, removeKeys: seq<string>): map<string, string> {
    (keys + Visible(Overrides(fields))) - LowerAll(removeKeys)
  }

  /** The meaning of the file after a profile block is written. */
  lemma {:induction false} WriteDoc(contents: string, profileName: string, t: nat, fields: seq<Field>,
          removeKeys: seq<string>)
    returns (a: seq<Section>, s: Section, s': Section, b: seq<Section>)
    requires WellFormed(contents) && TargetAt(contents, profileName, t) && GoodFields(fields)
    requires TidyWrite(contents, ProfileHeader(profileName), fields, removeKeys)
    ensures Doc(Chunks(contents)) == a + [s] + b && |Entries(a)| == t
    ensures Doc(Chunks(WithProfileBlock(contents, profileName, fields, removeKeys))) == a + [s'] + b
    ensures s.keys == SectionKeys(contents, ProfileHeader(profileName)) && s'.keys == WrittenKeys(s.keys, fields, removeKeys)
    ensures HeaderKind(s.header) == Some(Profile(Entries(Doc(Chunks(contents)))[t].name))
    ensures HeaderKind(s'.header) == Some(Profile(CanonName(profileName)))
  {
    hide Chunks, Doc, Entries, HeaderKind, Trim, Lower, ProfileHeader, Keys, GoodName, GoodHeader, HeaderIndex,
         BodyLength, ProfileFrom, ClosedHeaders, CanonicalDoc, DistinctHeaders, SectionOf, Endpoints, WrittenKeys,
         TidyFor, GoodFields, ProfileBlock, Touched, LowerAll, IsBracket, IsHeader, NoBrackets, EndsLine, IsBlock,
         ReplaceSection, Visible, Overrides;
    var cs, header := Chunks(contents), ProfileHeader(profileName);
    var c := LocateTarget(contents, profileName, t);
    TargetName(contents, profileName, t);
    SectionAtIndex(cs, header);
    var section := cs[c.i..c.j];
    assert section[1..] == cs[c.i + 1..c.j];
    WrittenBlockParses(contents, header, section, fields, removeKeys);
    WrittenIs(section, fields, removeKeys);
    var block := ProfileBlock(header, contents, fields, removeKeys);
    var bs := Chunks(block);
    HeaderForm(header, bs[0]);
    BlockShape(block, header);
    ReplaceDoc(contents, header, c, block);
    WriteIsReplace(contents, profileName, fields, removeKeys, section);
    a, s, s', b := Doc(cs[..c.i]), SectionFrom(cs[c.i], cs[c.i + 1..c.j]), SectionFrom(bs[0], bs[1..]), Doc(cs[c.j..]);
  }

  lemma {:induction false} WrittenIs(section: seq<string>, fields: seq<Field>, removeKeys: seq<string>)
    requires section != []
    ensures WrittenKeys(Keys(section[1..]), fields, removeKeys)
         == (Keys(section[1..]) + Visible(Overrides(fields))) - LowerAll(removeKeys)
  {
  }

  lemma {:induction false} WriteIsReplace(contents: string, profileName: string, fields: seq<Field>,
          removeKeys: seq<string>,
          section: seq<string>)
    requires SectionOf(Chunks(contents), ProfileHeader(profileName)) == Some(section)
    ensures var header := ProfileHeader(profileName);
            WithProfileBlock(contents, profileName, fields, removeKeys)
              == ReplaceSection(contents, header, ProfileBlock(header, contents, fields, removeKeys))
  {
    hide Chunks, SectionOf, ProfileHeader, ProfileBlock;
  }

  /** The written profile is read with its old keys, overridden by the fields and
      without the removed ones; every other entry is as it was. */
  lemma {:induction false} WriteMeansMerge(contents: string, profileName: string, t: nat, fields: seq<Field>,
          removeKeys: seq<string>)
    requires WellFormed(contents) && TargetAt(contents, profileName, t) && GoodFields(fields)
    requires TidyWrite(contents, ProfileHeader(profileName), fields, removeKeys)
    ensures var before, after := Parse(contents), Parse(WithProfileBlock(contents, profileName, fields, removeKeys));
            var keys, doc := SectionKeys(contents, ProfileHeader(profileName)), Doc(Chunks(contents));
            && |after| == |before| && t < |before|
            && before[t] == Resolve(ProfileFrom(before[t].name, false, keys), doc)
            && after[t] == Resolve(ProfileFrom(CanonName(profileName), false, WrittenKeys(keys, fields, removeKeys)), doc)
            && (forall i | 0 <= i < |before| && i != t :: after[i] == before[i])
  {
    hide Chunks, Doc, HeaderKind, Lower, ProfileHeader, WellFormed, GoodFields, EndpointsOf, UrlOf, WrittenKeys,
         SectionKeys, ProfileFrom, WithProfileBlock, TidyWrite, TargetAt, Entries, Interpret, Resolve;
    TargetIndexIn(contents, profileName, t);
    var a, s, s', b := WriteDoc(contents, profileName, t, fields, removeKeys);
    var d, d' := a + [s] + b, a + [s'] + b;
    var name := Entries(d)[t].name;
    ReplacedEntry(a, s, s', b, t, name, CanonName(profileName));
    forall k ensures EndpointsOf(d', k) == EndpointsOf(d, k) {
      RelinkEndpoints(a, s, s', b, k);
    }
    InterpretReplaced(d, d', t, ProfileFrom(CanonName(profileName), false, s'.keys));
    ParseServices(contents, t);
  }

  lemma {:induction false} ReplacedEntry(a: seq<Section>, s: Section, s': Section, b: seq<Section>, t: nat,
          name: string,
          name': string)
    requires |Entries(a)| == t && HeaderKind(s.header) == Some(Profile(name)) && HeaderKind(s'.header) == Some(Profile(name'))
    ensures t < |Entries(a + [s] + b)| && Entries(a + [s] + b)[t] == ProfileFrom(name, false, s.keys)
    ensures Entries(a + [s'] + b) == Entries(a + [s] + b)[t := ProfileFrom(name', false, s'.keys)]
  {
    hide HeaderKind, Entries, ProfileFrom;
    EntriesThree(a, s, b);
    EntriesThree(a, s', b);
  }

  lemma {:induction false} InterpretReplaced(d: seq<Section>, d': seq<Section>, t: nat, e: ProfileInfo)
    requires t < |Entries(d)| && Entries(d') == Entries(d)[t := e] && forall k :: EndpointsOf(d', k) == EndpointsOf(d, k)
    ensures |Interpret(d)| == |Interpret(d')| == |Entries(d)|
    ensures Interpret(d)[t] == Resolve(Entries(d)[t], d) && Interpret(d')[t] == Resolve(e, d)
    ensures forall i | 0 <= i < |Entries(d)| && i != t :: Interpret(d')[i] == Interpret(d)[i]
  {
    hide Entries, EndpointsOf, UrlOf, Lower;
  }

  // ---------------------------------------------------------------------
  // A profile that is not there
  // ---------------------------------------------------------------------

  lemma {:induction false} NoEntries()
    ensures ReadEntries([]) == [] && ParsedKeys([]) == map[] && BlanksFrom([], 0, []) == 0
    ensures forall touched :: TidyEntries([], touched)
  {
  }

  /** From the block of a new section the parser reads the fields. */
  lemma {:induction false} NewBlockParses(contents: string, header: string, fields: seq<Field>,
          removeKeys: seq<string>)
    requires GoodHeader(header) && GoodFields(fields) && SectionOf(Chunks(contents), header).None?
    ensures var cs := Chunks(ProfileBlock(header, contents, fields, removeKeys));
            && cs != [] && Trim(cs[0]) == header && Keys(cs[1..]) == WrittenKeys(map[], fields, removeKeys)
            && IsBlock(ProfileBlock(header, contents, fields, removeKeys), header)
  {
    hide Trim, Chunks, SectionOf, Keys, ReadEntries, BodyLines, ParsedKeys, Merged, GoodEntries, RenderLines,
         BlankLines, Unlines, TidyEntries, IsBlock, BlanksFrom, GoodFields, Overrides, Visible, LowerAll;
    NoBody(contents, header);
    NoEntries();
    var remove := LowerAll(removeKeys);
    var m := Merged([], fields, remove);
    MergedParsed([], fields, remove);
    NothingIsGood();
    MergedGood([], fields, remove);
    BlockKeys(header, m, 0);
    BlockIsSection(header, m, 0);
  }

  lemma {:induction false} NoBody(contents: string, header: string)
    requires SectionOf(Chunks(contents), header).None?
    ensures BodyLines(contents, header) == []
  {
    hide Chunks, SectionOf;
  }

  lemma {:induction false} NothingIsGood()
    ensures GoodEntries([])
  {
  }

  lemma {:induction false} AppendedBlockDoc(contents: string, header: string, block: string)
    requires GoodHeader(header) && IsBlock(block, header) && Chunks(block) != [] && Trim(Chunks(block)[0]) == header
    ensures var bs := Chunks(block);
            Doc(Chunks(AppendBlock(contents, block))) == Doc(Chunks(contents)) + [SectionFrom(bs[0], bs[1..])]
  {
    hide Chunks, Doc, Trim, IsBlock, EndedLine, GoodHeader, IsHeader, NoBrackets, Keys, Endpoints;
    var bs, ended := Chunks(block), EndedLine(contents);
    EndedMeaning(contents);
    AddBreak(ended, '\n');
    ChunksConcat(ended + "\n", block);
    HeaderForm(header, bs[0]);
    BlockShape(block, header);
    BlockDoc(bs);
    DocConcat(Chunks(ended + "\n"), bs);
  }

  /** Writing a profile whose header is not there gives one more entry, the last, with
      the fields as its keys; every other entry is as it was. */
  lemma {:induction false} WriteAppends(contents: string, profileName: string, fields: seq<Field>,
          removeKeys: seq<string>)
    requires GoodName(profileName) && GoodFields(fields) && SectionOf(Chunks(contents), ProfileHeader(profileName)).None?
    ensures Parse(WithProfileBlock(contents, profileName, fields, removeKeys))
         == Parse(contents) + [Resolve(ProfileFrom(CanonName(profileName), false, WrittenKeys(map[], fields, removeKeys)),
                                       Doc(Chunks(contents)))]
  {
    hide Chunks, Doc, Trim, HeaderKind, ProfileHeader, ProfileFrom, GoodName, GoodFields, WrittenKeys, SectionOf,
         IsBlock, ProfileBlock, AppendBlock, Keys, Endpoints, Interpret, Resolve, GoodHeader, Entries;
    var header := ProfileHeader(profileName);
    ProfileHeaderKind(profileName);
    NewBlockParses(contents, header, fields, removeKeys);
    var block := ProfileBlock(header, contents, fields, removeKeys);
    var bs := Chunks(block);
    AppendedBlockDoc(contents, header, block);
    NewProfile(Doc(Chunks(contents)), SectionFrom(bs[0], bs[1..]), CanonName(profileName));
  }

  lemma {:induction false} NewProfile(d: seq<Section>, s: Section, name: string)
    requires HeaderKind(s.header) == Some(Profile(name))
    ensures Interpret(d + [s]) == Interpret(d) + [Resolve(ProfileFrom(name, false, s.keys), d)]
  {
    hide HeaderKind, Entries, EndpointsOf, UrlOf, Lower, ProfileFrom;
    EntriesConcat(d, [s]);
    OneProfile(s, name);
    forall k ensures EndpointsOf(d + [s], k) == EndpointsOf(d, k) {
      EndpointsOfOne(d, s, k);
      ProfileNoServices(s, k);
      assert EndpointsOf(d, k) + [] == EndpointsOf(d, k);
    }
  }

  lemma {:induction false} OneProfile(s: Section, name: string)
    requires HeaderKind(s.header) == Some(Profile(name))
    ensures Entries([s]) == [ProfileFrom(name, false, s.keys)]
  {
    hide HeaderKind, ProfileFrom;
    assert [s][1..] == [];
    assert Entries([s]) == EntryOf(HeaderKind(s.header), s.keys) + Entries([]);
  }
}
