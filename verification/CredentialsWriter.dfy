/** The merge-writer for sections of the credentials file: every line with a key is
    a key, and nothing is removed. */
module CredentialsWriter {
  import opened Text
  import opened Sections
  import opened AwsParser
  import opened MergeWriter
  import opened ProfileWriter

  /** The keys of a section body, in order. */
  function FlatEntries(lines: seq<string>): seq<Entry> {
    if lines == [] then [] else
      (match KeyValue(lines[0]) case None => [] case Some((k, v)) => [Entry(k, v, [])]) + FlatEntries(lines[1..])
  }

  function FlatLine(e: Entry): string {
    e.key + " = " + e.value
  }

  function FlatLines(es: seq<Entry>): (ls: seq<string>)
    ensures |ls| == |es| && forall i | 0 <= i < |ls| :: ls[i] == FlatLine(es[i])
  {
    seq(|es|, i requires 0 <= i < |es| => FlatLine(es[i]))
  }

  function CredentialsBlock(header: string, contents: string, fields: seq<Field>): string {
    Unlines([header] + FlatLines(Merged(FlatEntries(BodyLines(contents, header)), fields, {})))
  }

  function CredentialsHeader(name: string): string {
    "[" + name + "]"
  }

  // ---------------------------------------------------------------------
  // The writer
  // ---------------------------------------------------------------------

  lemma {:induction false} FlatEntriesSnoc(lines: seq<string>, k: nat)
    requires k < |lines|
    ensures FlatEntries(lines[..k + 1]) ==
            FlatEntries(lines[..k]) + match KeyValue(lines[k]) case None => [] case Some((key, v)) => [Entry(key, v, [])]
    decreases k
  {
    hide KeyValue;
    if k == 0 {
      assert lines[..1][1..] == [] && lines[..0] == [];
    } else {
      FlatEntriesSnoc(lines[1..], k - 1);
      assert lines[..k + 1][1..] == lines[1..][..k] && lines[..k][1..] == lines[1..][..k - 1];
    }
  }

  method ReadFlat(lines: seq<string>) returns (existingKeys: seq<Entry>)
    ensures existingKeys == FlatEntries(lines)
  {
    hide KeyValue;
    existingKeys := [];
    var k := 0;
    while k < |lines|
      invariant k <= |lines| && existingKeys == FlatEntries(lines[..k])
    {
      FlatEntriesSnoc(lines, k);
      var kv := KeyValue(lines[k]);
      if kv.Some? {
        existingKeys := existingKeys + [Entry(kv.value.0, kv.value.1, [])];
      }
      k := k + 1;
    }
    assert lines[..k] == lines;
  }

  /** One line more. */
  lemma {:induction false} BlockSnoc(header: string, es: seq<Entry>, e: Entry)
    ensures Unlines([header] + FlatLines(es + [e])) == Unlines([header] + FlatLines(es)) + (FlatLine(e) + "\n")
  {
    hide FlatLine;
    assert [header] + FlatLines(es + [e]) == ([header] + FlatLines(es)) + [FlatLine(e)];
    UnlinesConcat([header] + FlatLines(es), [FlatLine(e)]);
    assert Unlines([FlatLine(e)]) == FlatLine(e) + "\n" + Unlines([FlatLine(e)][1..]);
    assert [FlatLine(e)][1..] == [];
  }

  lemma {:induction false} BlockStart(header: string)
    ensures Unlines([header] + FlatLines([])) == header + "\n"
  {
    assert [header] + FlatLines([]) == [header] && [header][1..] == [];
  }

  /** `build_credentials_block`. */
  method BuildCredentialsBlock(header: string, contents: string, fields: seq<Field>) returns (block: string)
    ensures block == CredentialsBlock(header, contents, fields)
  {
    hide FlatLine, Lower, Unlines, KeyValue, FlatEntries, Kept, Added, Overrides;
    var raw := SectionRawBytes(contents, header);
    var lines := [];
    if raw.Some? {
      var all := Lines(raw.value);
      lines := if all == [] then [] else all[1..];
    }
    var existingKeys := ReadFlat(lines);
    var overrides := Overrides(fields);
    block := header + "\n";
    BlockStart(header);
    NothingMerged(overrides);
    var emitted: set<string> := {};
    ghost var kept: seq<Entry> := [];
    var i := 0;
    assert existingKeys[..0] == [];
    while i < |existingKeys|
      invariant i <= |existingKeys| && kept == Kept(existingKeys[..i], overrides, {})
      invariant block == Unlines([header] + FlatLines(kept)) && emitted == EntryKeys(kept)
    {
      var e := MergeEntry(existingKeys[i], overrides);
      KeptSnoc(existingKeys, i, overrides, {});
      BlockSnoc(header, kept, e);
      block := block + (FlatLine(e) + "\n");
      emitted := emitted + {e.key};
      EntryKeysSnoc(kept, e);
      kept := kept + [e];
      i := i + 1;
    }
    assert existingKeys[..i] == existingKeys;
    ghost var added: seq<Entry> := [];
    NothingAdded(emitted);
    assert kept + [] == kept && fields[..0] == [];
    var j := 0;
    while j < |fields|
      invariant j <= |fields| && added == Added(fields[..j], emitted, {})
      invariant block == Unlines([header] + FlatLines(kept + added))
    {
      var (key, value) := fields[j];
      AddedSnoc(fields, j, emitted, {});
      assert added + [] == added;
      if Lower(key) !in emitted && value != "" {
        var e := Entry(Lower(key), value, []);
        BlockSnoc(header, kept + added, e);
        ConcatAssoc(kept, added, [e]);
        block := block + (FlatLine(e) + "\n");
        added := added + [e];
      }
      j := j + 1;
    }
    assert fields[..j] == fields;
  }

  lemma {:induction false} NothingMerged(overrides: map<string, string>)
    ensures Kept([], overrides, {}) == [] && EntryKeys([]) == {}
  {
  }

  lemma {:induction false} NothingAdded(emitted: set<string>)
    ensures Added([], emitted, {}) == []
  {
  }

  method ReplaceOrAppendCredentialsBlock(contents: string, name: string, fields: seq<Field>) returns (result: string)
    ensures var header := CredentialsHeader(name);
            result == ReplaceOrAppend(contents, header, CredentialsBlock(header, contents, fields))
  {
    var header := CredentialsHeader(name);
    var newBlock := BuildCredentialsBlock(header, contents, fields);
    result := ReplaceOrAppendBlock(contents, header, newBlock);
  }

  // ---------------------------------------------------------------------
  // Reading back what was written
  // ---------------------------------------------------------------------

  lemma {:induction false} FlatGood(lines: seq<string>)
    requires forall l | l in lines :: OneLine(l) && !IsBracket(l)
    ensures GoodEntries(FlatEntries(lines))
  {
    hide KeyValue, GoodKey, GoodValue, OneLine, IsBracket;
    if lines != [] {
      assert lines[0] in lines;
      assert forall l | l in lines[1..] :: l in lines;
      FlatGood(lines[1..]);
      if KeyValue(lines[0]).Some? { ReadKeyGood(lines[0]); }
    }
  }

  lemma {:induction false} FlatLineReads(e: Entry)
    requires GoodKey(e.key) && GoodValue(e.value)
    ensures var l := FlatLine(e);
            && KeyValue(l) == Some((e.key, e.value)) && OneLine(l) && !IsBracket(l) && StripCr(l) == l
  {
    hide KeyValue, Trim;
    var l := FlatLine(e);
    KeyValueOf("", e.key, " ", " ", e.value, "");
    assert l == "" + e.key + " " + "=" + (" " + e.value + "");
    TrimFirst("", l);
    assert "" + l == l && l[0] == e.key[0];
    assert l[|l| - 1] == if e.value == "" then ' ' else e.value[|e.value| - 1];
  }

  lemma {:induction false} FlatLinesRead(es: seq<Entry>)
    requires GoodEntries(es) && forall i | 0 <= i < |es| :: es[i].subs == []
    ensures FlatEntries(FlatLines(es)) == es
  {
    hide KeyValue, GoodKey, GoodValue, FlatLine, IsBracket, OneLine;
    if es != [] {
      assert GoodEntry(es[0]);
      FlatLineReads(es[0]);
      FlatLinesRead(es[1..]);
      assert FlatLines(es)[1..] == FlatLines(es[1..]);
      assert es == [es[0]] + es[1..];
    }
  }

  ghost predicate NoSubs(es: seq<Entry>) {
    forall i | 0 <= i < |es| :: es[i].subs == []
  }

  lemma {:induction false} FlatNoSubs(lines: seq<string>)
    ensures NoSubs(FlatEntries(lines))
  {
    hide KeyValue;
    if lines != [] { FlatNoSubs(lines[1..]); }
  }

  lemma {:induction false} KeptNoSubs(es: seq<Entry>, overrides: map<string, string>)
    requires NoSubs(es)
    ensures NoSubs(Kept(es, overrides, {}))
  {
    if es != [] { KeptNoSubs(es[1..], overrides); }
  }

  lemma {:induction false} AddedNoSubs(fields: seq<Field>, emitted: set<string>)
    ensures NoSubs(Added(fields, emitted, {}))
  {
    hide Lower;
    if fields != [] { AddedNoSubs(fields[1..], emitted); }
  }

  /** The written section reads back as the merge: old keys in their order, with the
      non-blank fields in place of their values, then the new ones. It is one
      section, and as a map it is the old keys overridden by the fields. */
  lemma {:induction false} CredentialsBlockMeaning(header: string, contents: string, fields: seq<Field>)
    requires GoodHeader(header) && GoodFields(fields)
    ensures var before := FlatEntries(BodyLines(contents, header));
            var block := CredentialsBlock(header, contents, fields);
            && Lines(block) != []
            && FlatEntries(Lines(block)[1..]) == Merged(before, fields, {})
            && TopKeys(FlatEntries(Lines(block)[1..])) == TopKeys(before) + Overrides(fields)
            && IsBlock(block, header)
  {
    hide KeyValue, FlatEntries, BodyLines, GoodEntries, FlatLine, Unlines, Kept, Added, Overrides, TopKeys, OneLine,
         IsBracket, GoodFields, StripCr, IsBlock, Lines, StripLines, EntryKeys;
    var body := BodyLines(contents, header);
    var before := FlatEntries(body);
    BodyLinesPlain(contents, header);
    FlatGood(body);
    FlatNoSubs(body);
    var es := Merged(before, fields, {});
    MergedGood(before, fields, {});
    MergedNoSubs(before, fields);
    var ls := [header] + FlatLines(es);
    FlatLinesForm(es);
    HeaderPlain(header);
    assert forall l | l in ls :: OneLine(l);
    assert PlainAfterFirst(ls) by { PlainTail(header, FlatLines(es)); }
    LinesAreSection(header, ls);
    LinesOfUnlines(ls);
    SameLines(ls);
    assert ls[1..] == FlatLines(es);
    FlatLinesRead(es);
    MergedKeys(before, fields, {});
    assert (TopKeys(before) + Overrides(fields)) - {} == TopKeys(before) + Overrides(fields);
  }

  lemma {:induction false} MergedNoSubs(es: seq<Entry>, fields: seq<Field>)
    requires NoSubs(es)
    ensures NoSubs(Merged(es, fields, {}))
  {
    hide Kept, Added, Overrides;
    KeptNoSubs(es, Overrides(fields));
    AddedNoSubs(fields, EntryKeys(Kept(es, Overrides(fields), {})));
  }

  lemma {:induction false} FlatLinesForm(es: seq<Entry>)
    requires GoodEntries(es)
    ensures forall l | l in FlatLines(es) :: OneLine(l) && !IsBracket(l) && StripCr(l) == l
  {
    hide FlatLine, GoodKey, GoodValue, OneLine, IsBracket, StripCr, KeyValue;
    forall l | l in FlatLines(es) ensures OneLine(l) && !IsBracket(l) && StripCr(l) == l {
      var i :| 0 <= i < |es| && FlatLine(es[i]) == l;
      assert GoodEntry(es[i]);
      FlatLineReads(es[i]);
    }
  }

  lemma {:induction false} HeaderPlain(header: string)
    requires GoodHeader(header)
    ensures OneLine(header) && StripCr(header) == header
  {
  }

  lemma {:induction false} PlainTail(header: string, ls: seq<string>)
    requires forall l | l in ls :: !IsBracket(l)
    ensures PlainAfterFirst([header] + ls)
  {
    hide IsBracket;
  }

  lemma {:induction false} SameLines(ls: seq<string>)
    requires forall l | l in ls :: StripCr(l) == l
    ensures StripLines(ls) == ls
  {
    hide StripCr;
  }
}
