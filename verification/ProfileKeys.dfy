/** How a merge-write changes what the parser reads from a profile section: the
    parser also reads the indented lines, which the writer carries along. */
module ProfileKeys {
  import opened Text
  import opened Sections
  import opened AwsParser
  import opened MergeWriter
  import DocEdits

  // ---------------------------------------------------------------------
  // Sections whose nested lines stay out of the way
  // ---------------------------------------------------------------------

  /** Each indented `key = value` line lies below a top-level key that is not
      `touched`, and its own key is not touched either. `owner` is the top-level key
      above the lines. */
  predicate TidyFor(lines: seq<string>, owner: Option<string>, touched: set<string>) {
    if lines == [] then true
    else if Trim(lines[0]) == "" then TidyFor(lines[1..], owner, touched)
    else if IsIndented(lines[0]) then
      && (LineKeys(lines[0]) == map[]
          || (owner.Some? && owner.value !in touched && LineKeys(lines[0]).Keys !! touched))
      && TidyFor(lines[1..], owner, touched)
    else match KeyValue(Trim(lines[0]))
         case None => TidyFor(lines[1..], owner, touched)
         case Some((k, _)) => TidyFor(lines[1..], Some(k), touched)
  }

  /** Tidy for an edit of the `services` key. */
  predicate TidyFrom(lines: seq<string>, owner: Option<string>) {
    TidyFor(lines, owner, {"services"})
  }

  function OwnerOf(es: seq<Entry>): Option<string> {
    if es == [] then None else Some(es[|es| - 1].key)
  }

  /** What the parser reads from the line of a top-level key. */
  function OwnKeys(e: Entry): map<string, string> {
    if e.key != "" && e.key[0] == '#' then map[] else map[e.key := e.value]
  }

  /** What the parser reads from a list of keys with their sub-properties. */
  function ParsedKeys(es: seq<Entry>): map<string, string> {
    if es == [] then map[] else OwnKeys(es[0]) + Keys(es[0].subs) + ParsedKeys(es[1..])
  }

  predicate TidyEntry(e: Entry, touched: set<string>) {
    Keys(e.subs).Keys !! touched && (e.key in touched ==> Keys(e.subs) == map[])
  }

  predicate TidyEntries(es: seq<Entry>, touched: set<string>) {
    forall i | 0 <= i < |es| :: TidyEntry(es[i], touched)
  }

  lemma {:induction false} ParsedKeysConcat(a: seq<Entry>, b: seq<Entry>)
    ensures ParsedKeys(a + b) == ParsedKeys(a) + ParsedKeys(b)
  {
    hide OwnKeys, Keys;
    if a == [] {
      assert a + b == b;
    } else {
      assert (a + b)[1..] == a[1..] + b;
      ParsedKeysConcat(a[1..], b);
      MapAssoc(OwnKeys(a[0]) + Keys(a[0].subs), ParsedKeys(a[1..]), ParsedKeys(b));
    }
  }

  lemma {:induction false} ParsedKeysOne(e: Entry)
    ensures ParsedKeys([e]) == OwnKeys(e) + Keys(e.subs)
  {
    hide OwnKeys, Keys;
    assert [e][1..] == [];
  }

  lemma {:induction false} KeysOne(l: string)
    ensures Keys([l]) == LineKeys(l)
  {
    hide LineKeys;
    assert [l][1..] == [];
  }

  /** The parser reads the `key = value` lines that the writer takes for keys. */
  lemma {:induction false} TopLineKeys(l: string)
    requires Trim(l) != ""
    ensures KeyValue(l) == KeyValue(Trim(l))
    ensures KeyValue(l).None? ==> LineKeys(l) == map[]
    ensures KeyValue(l).Some? ==> LineKeys(l) == OwnKeys(Entry(KeyValue(l).value.0, KeyValue(l).value.1, []))
  {
    hide KeyValue, Trim;
    KeyValueTrim(l);
    TrimTrimmed(l);
    if KeyValue(Trim(l)).Some? {
      FirstOfKey(Trim(l));
    }
  }

  lemma {:induction false} FirstOfKey(t: string)
    requires Trimmed(t) && KeyValue(t).Some?
    ensures t != "" && KeyValue(t).value.0 != "" && (KeyValue(t).value.0[0] == '#' <==> t[0] == '#')
  {
    hide IndexOf, IsWhitespace;
    var n := IndexOf(t, '=');
    assert Trim("") == "" && t[..0] == "";
    TrimFirst("", t[..n]);
    assert "" + t[..n] == t[..n];
  }

  predicate TidySub(l: string, owner: Option<string>, touched: set<string>) {
    LineKeys(l) == map[] || (owner.Some? && owner.value !in touched && LineKeys(l).Keys !! touched)
  }

  lemma {:induction false} AddSub(es: seq<Entry>, l: string, touched: set<string>)
    requires es != [] && IsIndented(l) && Trim(l) != ""
    ensures ParsedKeys(AddLine(es, l)) == ParsedKeys(es) + LineKeys(l)
    ensures OwnerOf(AddLine(es, l)) == OwnerOf(es)
    ensures TidyEntries(es, touched) && TidySub(l, OwnerOf(es), touched) ==> TidyEntries(AddLine(es, l), touched)
  {
    hide Trim, LineKeys, OwnKeys, Keys, ParsedKeys;
    var init, e := es[..|es| - 1], es[|es| - 1];
    var e' := e.(subs := e.subs + [l]);
    assert es == init + [e] && AddLine(es, l) == init + [e'];
    ParsedKeysConcat(init, [e]);
    ParsedKeysConcat(init, [e']);
    ParsedKeysOne(e);
    ParsedKeysOne(e');
    KeysConcat(e.subs, [l]);
    KeysOne(l);
    OwnSubs(e, e');
    MapAssoc(OwnKeys(e), Keys(e.subs), LineKeys(l));
    MapAssoc(ParsedKeys(init), OwnKeys(e) + Keys(e.subs), LineKeys(l));
    if TidyEntries(es, touched) && TidySub(l, OwnerOf(es), touched) {
      assert TidyEntry(e, touched);
      assert TidyEntry(e', touched) by { assert Keys(e'.subs).Keys == Keys(e.subs).Keys + LineKeys(l).Keys; }
      TidyInit(init, e, e', touched);
    }
  }

  lemma {:induction false} OwnSubs(e: Entry, e': Entry)
    requires e.key == e'.key && e.value == e'.value
    ensures OwnKeys(e) == OwnKeys(e')
  {
  }

  lemma {:induction false} TidyInit(init: seq<Entry>, e: Entry, e': Entry, touched: set<string>)
    requires TidyEntries(init + [e], touched) && TidyEntry(e', touched)
    ensures TidyEntries(init + [e'], touched)
  {
    hide TidyEntry;
    assert forall i | 0 <= i < |init| :: (init + [e])[i] == init[i];
  }

  lemma {:induction false} AddTop(es: seq<Entry>, l: string, touched: set<string>)
    requires Trim(l) != "" && !IsIndented(l)
    ensures ParsedKeys(AddLine(es, l)) == ParsedKeys(es) + LineKeys(l)
    ensures TidyEntries(es, touched) ==> TidyEntries(AddLine(es, l), touched)
    ensures OwnerOf(AddLine(es, l)) == if KeyValue(Trim(l)).Some? then Some(KeyValue(Trim(l)).value.0) else OwnerOf(es)
  {
    hide Trim, LineKeys, OwnKeys, KeyValue, ParsedKeys;
    TopLineKeys(l);
    if KeyValue(l).Some? {
      var e := Entry(KeyValue(l).value.0, KeyValue(l).value.1, []);
      ParsedKeysConcat(es, [e]);
      ParsedKeysOne(e);
      assert OwnKeys(e) + Keys([]) == OwnKeys(e);
    } else {
      assert ParsedKeys(es) + map[] == ParsedKeys(es);
    }
  }

  /** In a tidy section the writer's keys account for everything the parser reads. */
  lemma {:induction false} ReadAccounts(es: seq<Entry>, lines: seq<string>, touched: set<string>)
    requires TidyFor(lines, OwnerOf(es), touched) && TidyEntries(es, touched)
    ensures ParsedKeys(ReadFrom(es, lines)) == ParsedKeys(es) + Keys(lines)
    ensures TidyEntries(ReadFrom(es, lines), touched)
    decreases |lines|
  {
    hide Trim, LineKeys, OwnKeys, KeyValue, ParsedKeys, TidyEntries, IsIndented, OwnerOf;
    if lines == [] {
      assert ParsedKeys(es) + map[] == ParsedKeys(es);
    } else {
      var l, t := lines[0], lines[1..];
      var es' := AddLine(es, l);
      if Trim(l) == "" {
        DocEdits.BlankReads(l, None);
        assert ParsedKeys(es) + map[] == ParsedKeys(es);
      } else if !IsIndented(l) {
        AddTop(es, l, touched);
      } else if es == [] {
        NoOwner();
        assert ParsedKeys(es) + map[] == ParsedKeys(es);
      } else {
        AddSub(es, l, touched);
      }
      ReadAccounts(es', t, touched);
      MapAssoc(ParsedKeys(es), LineKeys(l), Keys(t));
    }
  }

  lemma {:induction false} NoOwner()
    ensures OwnerOf([]) == None
  {
  }

  // ---------------------------------------------------------------------
  // Reading a written block with the parser
  // ---------------------------------------------------------------------

  lemma {:induction false} RenderedKeys(es: seq<Entry>)
    requires GoodEntries(es)
    ensures Keys(RenderLines(es)) == ParsedKeys(es)
  {
    hide KeyLine, OwnKeys, LineKeys, GoodKey, GoodValue, GoodSub, Keys;
    if es == [] {
      NoKeys();
    } else {
      var e := es[0];
      assert GoodEntry(e);
      KeyLineReads(e);
      TopLineKeys(KeyLine(e));
      OwnSubs(e, Entry(e.key, e.value, []));
      KeysOne(KeyLine(e));
      KeysConcat([KeyLine(e)], e.subs);
      KeysConcat([KeyLine(e)] + e.subs, RenderLines(es[1..]));
      RenderedKeys(es[1..]);
    }
  }

  lemma {:induction false} NoKeys()
    ensures Keys([]) == map[]
  {
  }

  lemma {:induction false} BlankKeys(n: nat)
    ensures Keys(BlankLines(n)) == map[]
  {
    if n > 0 {
      var bs := BlankLines(n);
      assert bs[0] == "" && Trim("") == "";
      assert bs[1..] == BlankLines(n - 1);
      BlankKeys(n - 1);
    }
  }

  lemma {:induction false} EndedReads(ls: seq<string>)
    ensures DocEdits.SameReads(Ended(ls), ls)
  {
    hide Trim;
    var cs := Ended(ls);
    forall k | 0 <= k < |ls| ensures Trim(cs[k]) == Trim(ls[k]) && IsIndented(cs[k]) == IsIndented(ls[k]) {
      TrimPadded("", ls[k], "\n");
      assert "" + ls[k] + "\n" == cs[k];
    }
  }

  /** The lines of a written block as the parser reads them. */
  lemma {:induction false} BlockKeys(header: string, es: seq<Entry>, n: nat)
    requires GoodHeader(header) && GoodEntries(es)
    ensures var cs := Chunks(Unlines([header] + RenderLines(es) + BlankLines(n)));
            && cs != [] && Trim(cs[0]) == header && Keys(cs[1..]) == ParsedKeys(es)
  {
    hide IsBracket, OneLine, GoodEntries, RenderLines, BlankLines, Chunks, Trim, Keys, ParsedKeys, Unlines;
    var ls := [header] + RenderLines(es) + BlankLines(n);
    var tail := RenderLines(es) + BlankLines(n);
    ConcatAssoc([header], RenderLines(es), BlankLines(n));
    assert ls == [header] + tail;
    BlockLinesPlain(header, es, n);
    ChunksOfUnlines(ls);
    EndedReads(ls);
    EndedReads(tail);
    assert Ended(ls)[1..] == Ended(tail);
    DocEdits.SameReadsBody(Ended(tail), tail, None);
    KeysConcat(RenderLines(es), BlankLines(n));
    RenderedKeys(es);
    BlankKeys(n);
    assert ParsedKeys(es) + map[] == ParsedKeys(es);
    TrimOfTrimmed(header);
    assert ls[0] == header;
  }

  // ---------------------------------------------------------------------
  // What the merge means for the parser
  // ---------------------------------------------------------------------

  function Touched(fields: seq<Field>, remove: set<string>): set<string> {
    Overrides(fields).Keys + remove
  }

  /** The fields the parser will read: a key that starts with `#` is a comment. */
  function Visible(overrides: map<string, string>): map<string, string> {
    map k | k in overrides && !(k != "" && k[0] == '#') :: overrides[k]
  }

  lemma {:induction false} KeptParsed(es: seq<Entry>, o: map<string, string>, remove: set<string>)
    requires TidyEntries(es, o.Keys + remove)
    ensures var kept := Kept(es, o, remove);
            && ParsedKeys(kept) == KeptMap(ParsedKeys(es), o, remove)
            && TidyEntries(kept, o.Keys + remove)
            && (forall k | k in Visible(o) && k !in remove :: k in EntryKeys(kept) <==> k in ParsedKeys(es))
            && (forall k | k in o && k !in Visible(o) :: k !in ParsedKeys(es))
  {
    hide Keys, KeptMap, OwnKeys, Visible;
    if es == [] {
      NothingKept(o, remove);
    } else {
      var e, t := es[0], es[1..];
      assert TidyEntry(e, o.Keys + remove);
      KeptParsed(t, o, remove);
      var first := if e.key in remove then [] else [MergeEntry(e, o)];
      var rest := Kept(t, o, remove);
      assert Kept(es, o, remove) == first + rest;
      ParsedKeysConcat(first, rest);
      KeptOne(e, first, o, remove);
      KeptMapSum(OwnKeys(e) + Keys(e.subs), ParsedKeys(t), o, remove);
      EntryKeysJoin(first, rest);
      assert ParsedKeys(es) == OwnKeys(e) + Keys(e.subs) + ParsedKeys(t);
    }
  }

  lemma {:induction false} NothingKept(o: map<string, string>, remove: set<string>)
    ensures KeptMap(map[], o, remove) == map[]
  {
  }

  lemma {:induction false} KeptOne(e: Entry, first: seq<Entry>, o: map<string, string>, remove: set<string>)
    requires TidyEntry(e, o.Keys + remove) && first == if e.key in remove then [] else [MergeEntry(e, o)]
    ensures ParsedKeys(first) == KeptMap(OwnKeys(e) + Keys(e.subs), o, remove)
    ensures TidyEntries(first, o.Keys + remove)
    ensures forall k | k in Visible(o) && k !in remove :: k in EntryKeys(first) <==> k in OwnKeys(e) + Keys(e.subs)
    ensures forall k | k in o && k !in Visible(o) :: k !in OwnKeys(e) + Keys(e.subs)
  {
    hide Keys;
    NoKeys();
    if e.key !in remove {
      ParsedKeysOne(first[0]);
    }
  }

  lemma {:induction false} EntryKeysJoin(a: seq<Entry>, b: seq<Entry>)
    ensures EntryKeys(a + b) == EntryKeys(a) + EntryKeys(b)
  {
  }

  lemma {:induction false} AddedParsed(fields: seq<Field>, emitted: set<string>, remove: set<string>,
          touched: set<string>)
    ensures ParsedKeys(Added(fields, emitted, remove)) == Visible(Overrides(fields)) - (remove + emitted)
    ensures TidyEntries(Added(fields, emitted, remove), touched)
  {
    hide Lower, ParsedKeys, FieldMap, OwnKeys, Visible, TidyEntry;
    var drop := remove + emitted;
    if fields == [] {
      NoneVisible(drop);
    } else {
      AddedParsed(fields[1..], emitted, remove, touched);
      var one, rest := AddedOne(fields[0], drop), Added(fields[1..], emitted, remove);
      assert Added(fields, emitted, remove) == one + rest;
      ParsedKeysConcat(one, rest);
      AddedOneParsed(fields[0], drop, touched);
      VisibleSum(FieldMap(fields[0]), Overrides(fields[1..]));
      MapMinus(Visible(FieldMap(fields[0])), Visible(Overrides(fields[1..])), drop);
    }
  }

  lemma {:induction false} NoneVisible(drop: set<string>)
    ensures ParsedKeys([]) == map[] && Visible(map[]) - drop == map[]
  {
  }

  lemma {:induction false} VisibleSum(a: map<string, string>, b: map<string, string>)
    ensures Visible(a + b) == Visible(a) + Visible(b)
  {
  }

  lemma {:induction false} AddedOneParsed(f: Field, drop: set<string>, touched: set<string>)
    ensures ParsedKeys(AddedOne(f, drop)) == Visible(FieldMap(f)) - drop && TidyEntries(AddedOne(f, drop), touched)
  {
    hide Lower;
    var one := AddedOne(f, drop);
    if one != [] {
      ParsedKeysOne(one[0]);
      NoKeys();
      BareTidy(one[0], touched);
    }
  }

  /** What the parser reads after a merge: the old keys, overridden by the fields it can
      read, without the removed keys. */
  lemma {:induction false} MergedParsed(es: seq<Entry>, fields: seq<Field>, remove: set<string>)
    requires TidyEntries(es, Touched(fields, remove))
    ensures var merged := Merged(es, fields, remove);
            && ParsedKeys(merged) == (ParsedKeys(es) + Visible(Overrides(fields))) - remove
            && TidyEntries(merged, Touched(fields, remove))
  {
    hide ParsedKeys, Overrides, Kept, Added, EntryKeys, TidyEntry, Visible, KeptMap;
    var o := Overrides(fields);
    var kept := Kept(es, o, remove);
    KeptParsed(es, o, remove);
    AddedParsed(fields, EntryKeys(kept), remove, Touched(fields, remove));
    ParsedKeysConcat(kept, Added(fields, EntryKeys(kept), remove));
    KeptPlusVisible(ParsedKeys(es), o, remove, EntryKeys(kept));
  }

  lemma {:induction false} KeptPlusVisible(m: map<string, string>, o: map<string, string>, remove: set<string>,
          emitted: set<string>)
    requires forall k | k in Visible(o) && k !in remove :: k in emitted <==> k in m
    requires forall k | k in o && k !in Visible(o) :: k !in m
    ensures KeptMap(m, o, remove) + (Visible(o) - (remove + emitted)) == (m + Visible(o)) - remove
  {
  }

  lemma {:induction false} BareTidy(e: Entry, touched: set<string>)
    requires e.subs == []
    ensures TidyEntry(e, touched)
  {
  }

  // ---------------------------------------------------------------------
  // Tidiness survives
  // ---------------------------------------------------------------------

  lemma {:induction false} TidySameReads(cs: seq<string>, ds: seq<string>, owner: Option<string>,
          touched: set<string>)
    requires DocEdits.SameReads(cs, ds)
    ensures TidyFor(cs, owner, touched) == TidyFor(ds, owner, touched)
    decreases |cs|
  {
    hide Trim, IsIndented, KeyValue, LineKeys;
    if cs != [] {
      DocEdits.SameLine(cs[0], ds[0], None);
      var o := match KeyValue(Trim(cs[0])) case None => owner case Some((k, _)) => Some(k);
      assert DocEdits.SameReads(cs[1..], ds[1..]);
      TidySameReads(cs[1..], ds[1..], owner, touched);
      TidySameReads(cs[1..], ds[1..], o, touched);
    }
  }

  lemma {:induction false} TidyBlankLast(cs: seq<string>, c: string, owner: Option<string>, touched: set<string>)
    requires Trim(c) == ""
    ensures TidyFor(cs + [c], owner, touched) == TidyFor(cs, owner, touched)
    decreases |cs|
  {
    hide Trim, IsIndented, KeyValue, LineKeys;
    if cs == [] {
      assert cs + [c] == [c] && [c][1..] == [];
    } else {
      assert (cs + [c])[1..] == cs[1..] + [c];
      var o := match KeyValue(Trim(cs[0])) case None => owner case Some((k, _)) => Some(k);
      TidyBlankLast(cs[1..], c, owner, touched);
      TidyBlankLast(cs[1..], c, o, touched);
    }
  }

  lemma {:induction false} TidyBlanks(n: nat, owner: Option<string>, touched: set<string>)
    ensures TidyFor(BlankLines(n), owner, touched)
  {
    if n > 0 {
      var bs := BlankLines(n);
      assert bs[0] == "" && Trim("") == "";
      assert bs[1..] == BlankLines(n - 1);
      TidyBlanks(n - 1, owner, touched);
    }
  }

  lemma {:induction false} SubKeys(subs: seq<string>)
    requires subs != []
    ensures Keys(subs) == map[] ==> LineKeys(subs[0]) == map[] && Keys(subs[1..]) == map[]
    ensures Keys(subs).Keys == LineKeys(subs[0]).Keys + Keys(subs[1..]).Keys
  {
    hide LineKeys;
    assert Keys(subs) == LineKeys(subs[0]) + Keys(subs[1..]);
    assert Keys(subs).Keys == LineKeys(subs[0]).Keys + Keys(subs[1..]).Keys;
  }

  lemma {:induction false} TidySubs(subs: seq<string>, key: string, rest: seq<string>, touched: set<string>)
    requires (forall l | l in subs :: GoodSub(l)) && TidyFor(rest, Some(key), touched)
    requires Keys(subs).Keys !! touched && (key in touched ==> Keys(subs) == map[])
    ensures TidyFor(subs + rest, Some(key), touched)
  {
    hide Trim, KeyValue, LineKeys, Keys, IsBracket;
    if subs == [] {
      assert subs + rest == rest;
    } else {
      assert GoodSub(subs[0]);
      SubKeys(subs);
      assert (subs + rest)[1..] == subs[1..] + rest;
      TidySubs(subs[1..], key, rest, touched);
    }
  }

  lemma {:induction false} RenderedTidy(es: seq<Entry>, owner: Option<string>, blanks: nat, touched: set<string>)
    requires GoodEntries(es) && TidyEntries(es, touched)
    ensures TidyFor(RenderLines(es) + BlankLines(blanks), owner, touched)
    decreases |es|
  {
    hide Trim, KeyValue, LineKeys, Keys, KeyLine, GoodKey, GoodValue, GoodSub, BlankLines, IsIndented, RenderLines;
    RenderCons(es);
    if es == [] {
      assert [] + BlankLines(blanks) == BlankLines(blanks);
      TidyBlanks(blanks, owner, touched);
    } else {
      var e := es[0];
      assert GoodEntry(e) && TidyEntry(e, touched);
      KeyLineReads(e);
      KeyValueTrim(KeyLine(e));
      var rest := RenderLines(es[1..]) + BlankLines(blanks);
      RenderedTidy(es[1..], Some(e.key), blanks, touched);
      TidySubs(e.subs, e.key, rest, touched);
      var ls := RenderLines(es) + BlankLines(blanks);
      ConcatAssoc([KeyLine(e)] + e.subs, RenderLines(es[1..]), BlankLines(blanks));
      ConcatAssoc([KeyLine(e)], e.subs, rest);
      assert ls[1..] == e.subs + rest;
    }
  }

  lemma {:induction false} RenderCons(es: seq<Entry>)
    ensures es == [] ==> RenderLines(es) == []
    ensures es != [] ==> RenderLines(es) == [KeyLine(es[0])] + es[0].subs + RenderLines(es[1..])
  {
  }

  lemma {:induction false} BlockTidy(header: string, es: seq<Entry>, n: nat, touched: set<string>)
    requires GoodHeader(header) && GoodEntries(es) && TidyEntries(es, touched)
    ensures var cs := Chunks(Unlines([header] + RenderLines(es) + BlankLines(n)));
            cs != [] && TidyFor(cs[1..], None, touched)
  {
    hide IsBracket, OneLine, GoodEntries, RenderLines, BlankLines, Chunks, Trim, TidyEntries, TidyFor, Unlines;
    var ls := [header] + RenderLines(es) + BlankLines(n);
    var tail := RenderLines(es) + BlankLines(n);
    ConcatAssoc([header], RenderLines(es), BlankLines(n));
    BlockLinesPlain(header, es, n);
    ChunksOfUnlines(ls);
    EndedReads(tail);
    assert Ended(ls)[1..] == Ended(tail);
    RenderedTidy(es, None, n, touched);
    TidySameReads(Ended(tail), tail, None, touched);
  }

  // ---------------------------------------------------------------------
  // The rewritten profile section
  // ---------------------------------------------------------------------

  lemma {:induction false} BodyLinesRead(contents: string, header: string, section: seq<string>)
    requires SectionOf(Chunks(contents), header) == Some(section)
    ensures section != [] && DocEdits.SameReads(BodyLines(contents, header), section[1..])
  {
    hide Trim, Line, SectionOf, Chunks, BodyLines;
    BodyLinesOf(contents, header, section);
    var ls, cs := BodyLines(contents, header), section[1..];
    forall k | 0 <= k < |cs| ensures Trim(ls[k]) == Trim(cs[k]) && IsIndented(ls[k]) == IsIndented(cs[k]) {
      assert ls[k] == Line(section[k + 1]);
      TrimLine(section[k + 1]);
      IndentLine(section[k + 1]);
    }
  }

  /** The law of the profile merge-writer for the parser: from the written section it
      reads the old keys, overridden by the non-blank fields, without the removed
      keys, if the nested lines of the section stay out of the way. */
  lemma {:induction false} WrittenBlockParses(contents: string, header: string, section: seq<string>,
          fields: seq<Field>,
          removeKeys: seq<string>)
    requires GoodHeader(header) && SectionOf(Chunks(contents), header) == Some(section) && section != [] && GoodFields(fields)
    requires TidyFor(section[1..], None, Touched(fields, LowerAll(removeKeys)))
    ensures var cs := Chunks(ProfileBlock(header, contents, fields, removeKeys));
            && cs != [] && Trim(cs[0]) == header
            && Keys(cs[1..]) == (Keys(section[1..]) + Visible(Overrides(fields))) - LowerAll(removeKeys)
            && TidyFor(cs[1..], None, Touched(fields, LowerAll(removeKeys)))
            && IsBlock(ProfileBlock(header, contents, fields, removeKeys), header)
  {
    hide Trim, Chunks, SectionOf, Keys, TidyFor, ReadFrom, BodyLines, ParsedKeys, Merged, GoodEntries, RenderLines,
         BlankLines, Unlines, TidyEntries, IsBlock, BlanksFrom, GoodFields, Overrides, Visible, LowerAll, Touched;
    BodyLinesRead(contents, header, section);
    var ls, remove := BodyLines(contents, header), LowerAll(removeKeys);
    var touched := Touched(fields, remove);
    TidySameReads(ls, section[1..], None, touched);
    DocEdits.SameReadsBody(ls, section[1..], None);
    StartTidy(touched);
    ReadAccounts([], ls, touched);
    var es := ReadEntries(ls);
    assert map[] + Keys(ls) == Keys(ls);
    SectionEntriesGood(contents, header);
    var m := Merged(es, fields, remove);
    MergedParsed(es, fields, remove);
    MergedGood(es, fields, remove);
    var n := BlanksFrom([], 0, ls);
    BlockKeys(header, m, n);
    BlockTidy(header, m, n, touched);
    BlockIsSection(header, m, n);
  }

  /** With a name it sets the `services` key, without one it drops it, and every other
      key keeps its value. */
  lemma {:induction false} RelinkedBlock(contents: string, header: string, section: seq<string>, name: Option<string>)
    requires GoodHeader(header) && SectionOf(Chunks(contents), header) == Some(section) && section != []
    requires TidyFrom(section[1..], None)
    requires name.Some? ==> name.value != "" && GoodValue(name.value)
    ensures var cs := Chunks(RelinkBlock(contents, header, name));
            && cs != [] && Trim(cs[0]) == header
            && Keys(cs[1..]) == Relinked(Keys(section[1..]), name)
            && TidyFrom(cs[1..], None)
            && IsBlock(RelinkBlock(contents, header, name), header)
  {
    hide Trim, Chunks, SectionOf, Keys, TidyFor, ProfileBlock, IsBlock, GoodValue, GoodFields, GoodHeader, Touched,
         Visible, Overrides, LowerAll;
    var fields, remove := RelinkFields(name), RelinkRemoved(name);
    RelinkFieldsGood(name);
    RelinkTouches(name);
    WrittenBlockParses(contents, header, section, fields, remove);
  }

  lemma {:induction false} RelinkTouches(name: Option<string>)
    requires name.Some? ==> name.value != ""
    ensures Touched(RelinkFields(name), LowerAll(RelinkRemoved(name))) == {"services"}
    ensures LowerAll(RelinkRemoved(name)) == if name.Some? then {} else {"services"}
    ensures Visible(Overrides(RelinkFields(name))) == if name.Some? then map["services" := name.value] else map[]
  {
    hide Lower;
    LowerServices();
    if name.Some? {
      var fields := RelinkFields(name);
      assert fields[1..] == [];
      assert Overrides(fields) == map["services" := name.value] + Overrides([]);
      assert LowerAll([]) == {};
    } else {
      assert LowerAll(["services"]) == {"services"};
    }
  }

  lemma {:induction false} LowerServices()
    ensures Lower("services") == "services" && Overrides([]) == map[]
  {
  }

  function RelinkFields(name: Option<string>): seq<Field> {
    if name.Some? then [("services", name.value)] else []
  }

  function RelinkRemoved(name: Option<string>): seq<string> {
    if name.Some? then [] else ["services"]
  }

  /** The profile section with its `services` key set or dropped. */
  function RelinkBlock(contents: string, header: string, name: Option<string>): string {
    ProfileBlock(header, contents, RelinkFields(name), RelinkRemoved(name))
  }

  function Relinked(keys: map<string, string>, name: Option<string>): map<string, string> {
    if name.Some? then keys["services" := name.value] else keys - {"services"}
  }

  lemma {:induction false} StartTidy(touched: set<string>)
    ensures TidyEntries([], touched) && ParsedKeys([]) == map[] && OwnerOf([]) == None
  {
  }

  lemma {:induction false} RelinkFieldsGood(name: Option<string>)
    requires name.Some? ==> GoodValue(name.value)
    ensures GoodFields(RelinkFields(name))
  {
    hide GoodValue;
    LowerServices();
  }
}
