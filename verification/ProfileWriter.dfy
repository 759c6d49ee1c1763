/** The loops that build and place a rewritten section. */
module ProfileWriter {
  import opened Text
  import opened Sections
  import opened AwsParser
  import opened MergeWriter

  lemma {:induction false} ReadFromSnoc(lines: seq<string>, k: nat)
    requires k < |lines|
    ensures ReadFrom([], lines[..k + 1]) == AddLine(ReadFrom([], lines[..k]), lines[k])
  {
    hide AddLine;
    assert lines[..k + 1] == lines[..k] + [lines[k]];
    ReadFromConcat([], lines[..k], [lines[k]]);
    var es := ReadFrom([], lines[..k]);
    assert [lines[k]][1..] == [];
    assert ReadFrom(es, [lines[k]]) == ReadFrom(AddLine(es, lines[k]), []);
  }

  lemma {:induction false} BlanksSnoc(es: seq<Entry>, n: nat, lines: seq<string>, k: nat)
    requires k < |lines|
    ensures var before := ReadFrom(es, lines[..k]);
            var after := AddLine(before, lines[k]);
            var blanks := BlanksFrom(es, n, lines[..k]);
            BlanksFrom(es, n, lines[..k + 1])
              == if Trim(lines[k]) == "" then blanks + 1 else if after == before then blanks else 0
    decreases k
  {
    hide AddLine, Trim;
    if k > 0 {
      var es' := AddLine(es, lines[0]);
      var n' := if Trim(lines[0]) == "" then n + 1 else if es' == es then n else 0;
      BlanksSnoc(es', n', lines[1..], k - 1);
      assert lines[1..][..k - 1] == lines[..k][1..];
      assert lines[1..][..k] == lines[..k + 1][1..];
      assert lines[..k][0] == lines[0] == lines[..k + 1][0];
    } else {
      assert lines[..1][1..] == [] && lines[..1][0] == lines[0];
      assert lines[..0] == [];
    }
  }

  /** The reading loop of `build_profile_block`. */
  method ReadSection(lines: seq<string>) returns (existingKeys: seq<Entry>, trailingBlankLines: nat)
    ensures existingKeys == ReadEntries(lines)
    ensures trailingBlankLines == BlanksFrom([], 0, lines)
  {
    existingKeys := [];
    trailingBlankLines := 0;
    var k := 0;
    while k < |lines|
      invariant k <= |lines|
      invariant existingKeys == ReadFrom([], lines[..k])
      invariant trailingBlankLines == BlanksFrom([], 0, lines[..k])
    {
      var line := lines[k];
      ReadFromSnoc(lines, k);
      BlanksSnoc([], 0, lines, k);
      if Trim(line) == "" {
        trailingBlankLines := trailingBlankLines + 1;
      } else if IsIndented(line) {
        if existingKeys != [] {
          var last := existingKeys[|existingKeys| - 1];
          existingKeys := existingKeys[..|existingKeys| - 1] + [last.(subs := last.subs + [line])];
          trailingBlankLines := 0;
        }
      } else {
        var kv := KeyValue(line);
        if kv.Some? {
          existingKeys := existingKeys + [Entry(kv.value.0, kv.value.1, [])];
          trailingBlankLines := 0;
        }
      }
      k := k + 1;
    }
    assert lines[..k] == lines;
  }

  lemma {:induction false} RenderConcat(a: seq<Entry>, b: seq<Entry>)
    ensures RenderLines(a + b) == RenderLines(a) + RenderLines(b)
  {
    hide KeyLine;
    if a == [] {
      assert a + b == b;
    } else {
      assert (a + b)[1..] == a[1..] + b;
      RenderConcat(a[1..], b);
      ConcatAssoc([KeyLine(a[0])] + a[0].subs, RenderLines(a[1..]), RenderLines(b));
    }
  }

  function EntryText(es: seq<Entry>): string {
    Unlines(RenderLines(es))
  }

  lemma {:induction false} TextSnoc(es: seq<Entry>, e: Entry)
    ensures EntryText(es + [e]) == EntryText(es) + (KeyLine(e) + "\n") + Unlines(e.subs)
  {
    hide KeyLine;
    RenderConcat(es, [e]);
    assert RenderLines([e]) == [KeyLine(e)] + e.subs + RenderLines([]);
    assert RenderLines([e]) == [KeyLine(e)] + e.subs;
    UnlinesConcat(RenderLines(es), [KeyLine(e)] + e.subs);
    UnlinesConcat([KeyLine(e)], e.subs);
    assert Unlines([KeyLine(e)]) == KeyLine(e) + "\n" + Unlines([]);
    ConcatAssoc(EntryText(es), KeyLine(e) + "\n", Unlines(e.subs));
  }

  lemma {:induction false} AfterSnoc(block: string, es: seq<Entry>, e: Entry)
    ensures block + EntryText(es + [e]) == block + EntryText(es) + (KeyLine(e) + "\n") + Unlines(e.subs)
  {
    hide KeyLine, Unlines, EntryText;
    TextSnoc(es, e);
    var t, l, u := EntryText(es), KeyLine(e) + "\n", Unlines(e.subs);
    assert block + (t + l + u) == block + t + l + u;
  }

  lemma {:induction false} KeptConcat(a: seq<Entry>, b: seq<Entry>, overrides: map<string, string>,
          remove: set<string>)
    ensures Kept(a + b, overrides, remove) == Kept(a, overrides, remove) + Kept(b, overrides, remove)
  {
    hide MergeEntry;
    if a == [] {
      assert a + b == b;
    } else {
      assert (a + b)[1..] == a[1..] + b;
      KeptConcat(a[1..], b, overrides, remove);
    }
  }

  lemma {:induction false} KeptSnoc(es: seq<Entry>, i: nat, overrides: map<string, string>, remove: set<string>)
    requires i < |es|
    ensures Kept(es[..i + 1], overrides, remove)
         == Kept(es[..i], overrides, remove) + if es[i].key in remove then [] else [MergeEntry(es[i], overrides)]
  {
    hide MergeEntry;
    assert es[..i + 1] == es[..i] + [es[i]];
    KeptConcat(es[..i], [es[i]], overrides, remove);
    assert Kept([es[i]], overrides, remove)
        == (if es[i].key in remove then [] else [MergeEntry(es[i], overrides)]) + Kept([], overrides, remove);
  }

  lemma {:induction false} AddedConcat(a: seq<Field>, b: seq<Field>, emitted: set<string>, remove: set<string>)
    ensures Added(a + b, emitted, remove) == Added(a, emitted, remove) + Added(b, emitted, remove)
  {
    hide Lower;
    if a == [] {
      assert a + b == b;
    } else {
      assert (a + b)[1..] == a[1..] + b;
      AddedConcat(a[1..], b, emitted, remove);
    }
  }

  lemma {:induction false} AddedSnoc(fields: seq<Field>, i: nat, emitted: set<string>, remove: set<string>)
    requires i < |fields|
    ensures Added(fields[..i + 1], emitted, remove)
         == Added(fields[..i], emitted, remove) + AddedOne(fields[i], remove + emitted)
  {
    hide Lower;
    assert fields[..i + 1] == fields[..i] + [fields[i]];
    AddedConcat(fields[..i], [fields[i]], emitted, remove);
    assert Added([fields[i]], emitted, remove) == AddedOne(fields[i], remove + emitted) + Added([], emitted, remove);
  }

  /** The loop that writes the old keys. */
  method WriteKept(block: string, existingKeys: seq<Entry>, overrides: map<string, string>, remove: set<string>)
    returns (block': string, emittedKeys: set<string>)
    requires forall k | k in overrides :: overrides[k] != ""
    ensures block' == block + EntryText(Kept(existingKeys, overrides, remove))
    ensures emittedKeys == EntryKeys(Kept(existingKeys, overrides, remove))
  {
    hide KeyLine;
    assert block + "" == block;
    block' := block;
    emittedKeys := {};
    var i := 0;
    while i < |existingKeys|
      invariant i <= |existingKeys|
      invariant block' == block + EntryText(Kept(existingKeys[..i], overrides, remove))
      invariant emittedKeys == EntryKeys(Kept(existingKeys[..i], overrides, remove))
    {
      var e := existingKeys[i];
      ghost var kept := Kept(existingKeys[..i], overrides, remove);
      KeptSnoc(existingKeys, i, overrides, remove);
      assert kept + [] == kept;
      i := i + 1;
      if e.key in remove {
        continue;
      }
      var e' := MergeEntry(e, overrides);
      AfterSnoc(block, kept, e');
      EntryKeysSnoc(kept, e');
      block' := block' + (KeyLine(e') + "\n");
      if e.key in overrides {
        assert Unlines([]) == "";
        assert block' + "" == block';
      } else {
        block' := WriteLines(block', e.subs);
      }
      emittedKeys := emittedKeys + {e.key};
    }
    assert existingKeys[..i] == existingKeys;
  }

  lemma {:induction false} EntryKeysSnoc(es: seq<Entry>, e: Entry)
    ensures EntryKeys(es + [e]) == EntryKeys(es) + {e.key}
  {
  }

  method WriteLines(block: string, lines: seq<string>) returns (block': string)
    ensures block' == block + Unlines(lines)
  {
    block' := block;
    assert block + "" == block;
    var i := 0;
    while i < |lines|
      invariant i <= |lines|
      invariant block' == block + Unlines(lines[..i])
    {
      assert lines[..i + 1] == lines[..i] + [lines[i]];
      UnlinesConcat(lines[..i], [lines[i]]);
      assert Unlines([lines[i]]) == lines[i] + "\n" + Unlines([]);
      ConcatAssoc(block, Unlines(lines[..i]), lines[i] + "\n");
      block' := block' + (lines[i] + "\n");
      i := i + 1;
    }
    assert lines[..i] == lines;
  }

  /** The loop that writes the new keys. */
  method WriteAdded(block: string, fields: seq<Field>, emittedKeys: set<string>, remove: set<string>)
    returns (block': string)
    ensures block' == block + EntryText(Added(fields, emittedKeys, remove))
  {
    block' := block;
    assert block + "" == block;
    var i := 0;
    while i < |fields|
      invariant i <= |fields|
      invariant block' == block + EntryText(Added(fields[..i], emittedKeys, remove))
    {
      var (key, value) := fields[i];
      var keyLower := Lower(key);
      ghost var before := Added(fields[..i], emittedKeys, remove);
      AddedSnoc(fields, i, emittedKeys, remove);
      assert before + [] == before;
      i := i + 1;
      if keyLower in remove {
        continue;
      }
      if keyLower !in emittedKeys && value != "" {
        AfterSnoc(block, before, Entry(keyLower, value, []));
        block' := block' + (keyLower + " = " + value + "\n");
        assert Unlines([]) == "";
        assert block' + "" == block';
      }
    }
    assert fields[..i] == fields;
  }

  lemma {:induction false} OverridesNonBlank(fields: seq<Field>)
    ensures forall k | k in Overrides(fields) :: Overrides(fields)[k] != ""
  {
    hide Lower;
    if fields != [] {
      OverridesNonBlank(fields[1..]);
      var first := FieldMap(fields[0]);
      assert forall k | k in first :: first[k] != "";
    }
  }

  /** `build_profile_block`. */
  method BuildProfileBlock(header: string, contents: string, fields: seq<Field>, removeKeys: seq<string>)
    returns (block: string)
    ensures block == ProfileBlock(header, contents, fields, removeKeys)
  {
    var remove := LowerAll(removeKeys);
    var raw := SectionRawBytes(contents, header);
    var lines := [];
    if raw.Some? {
      var all := Lines(raw.value);
      lines := if all == [] then [] else all[1..];
    }
    var existingKeys, trailingBlankLines := ReadSection(lines);
    var overrides := Overrides(fields);
    OverridesNonBlank(fields);
    var emittedKeys;
    block := header + "\n";
    block, emittedKeys := WriteKept(block, existingKeys, overrides, remove);
    block := WriteAdded(block, fields, emittedKeys, remove);
    block := WriteLines(block, BlankLines(trailingBlankLines));
    BlockText(header, Kept(existingKeys, overrides, remove), Added(fields, emittedKeys, remove), BlankLines(trailingBlankLines));
  }

  lemma {:induction false} BlockText(header: string, kept: seq<Entry>, added: seq<Entry>, blanks: seq<string>)
    ensures Unlines([header] + RenderLines(kept + added) + blanks)
         == header + "\n" + EntryText(kept) + EntryText(added) + Unlines(blanks)
  {
    RenderConcat(kept, added);
    var h, k, a := [header], RenderLines(kept), RenderLines(added);
    UnlinesConcat(h + (k + a), blanks);
    UnlinesConcat(h, k + a);
    UnlinesConcat(k, a);
    assert Unlines(h) == header + "\n" + Unlines([]);
    ConcatAssoc(header + "\n", EntryText(kept), EntryText(added));
  }

  function ProfileHeader(name: string): string {
    if EqIgnoreCase(name, "default") then "[default]" else "[profile " + name + "]"
  }

  /** `replace_or_append_profile_block` as a function of its arguments. */
  function WithProfileBlock(contents: string, name: string, fields: seq<Field>, removeKeys: seq<string>): string {
    var header := ProfileHeader(name);
    ReplaceOrAppend(contents, header, ProfileBlock(header, contents, fields, removeKeys))
  }

  method ReplaceOrAppendProfileBlock(contents: string, name: string, fields: seq<Field>, removeKeys: seq<string>)
    returns (result: string)
    ensures result == WithProfileBlock(contents, name, fields, removeKeys)
  {
    var header := ProfileHeader(name);
    var newBlock := BuildProfileBlock(header, contents, fields, removeKeys);
    result := ReplaceOrAppendBlock(contents, header, newBlock);
  }

  function SsoSessionHeader(name: string): string {
    "[sso-session " + name + "]"
  }

  /** `replace_or_append_sso_session_block` as a function of its arguments. */
  function WithSessionBlock(contents: string, name: string, fields: seq<Field>): string {
    var header := SsoSessionHeader(name);
    ReplaceOrAppend(contents, header, ProfileBlock(header, contents, fields, []))
  }

  method ReplaceOrAppendSsoSessionBlock(contents: string, name: string, fields: seq<Field>) returns (result: string)
    ensures result == WithSessionBlock(contents, name, fields)
  {
    var header := SsoSessionHeader(name);
    var newBlock := BuildProfileBlock(header, contents, fields, []);
    result := ReplaceOrAppendBlock(contents, header, newBlock);
  }
}
