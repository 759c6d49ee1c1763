/** The merge-writers: a section rewritten from its old keys and new fields, so
    that reading it back gives exactly the merge. */
module MergeWriter {
  import opened Text
  import opened Sections
  import opened AwsParser

  // ---------------------------------------------------------------------
  // Reading the keys of a section
  // ---------------------------------------------------------------------

  /** A top-level key, its value and the indented lines below it. */
  datatype Entry = Entry(key: string, value: string, subs: seq<string>)

  /** What one more line adds to the keys read so far. */
  function AddLine(es: seq<Entry>, line: string): seq<Entry> {
    if Trim(line) == "" then es
    else if IsIndented(line) then
      if es == [] then es
      else es[..|es| - 1] + [es[|es| - 1].(subs := es[|es| - 1].subs + [line])]
    else
      match KeyValue(line) case None => es case Some((k, v)) => es + [Entry(k, v, [])]
  }

  function ReadFrom(es: seq<Entry>, lines: seq<string>): seq<Entry>
    decreases |lines|
  {
    if lines == [] then es else ReadFrom(AddLine(es, lines[0]), lines[1..])
  }

  /** The keys of a section body, in order, each with its sub-properties. */
  function ReadEntries(lines: seq<string>): seq<Entry> {
    ReadFrom([], lines)
  }

  /** Blank lines since the last line that was kept. */
  function BlanksFrom(es: seq<Entry>, blanks: nat, lines: seq<string>): nat
    decreases |lines|
  {
    if lines == [] then blanks else
      var es' := AddLine(es, lines[0]);
      BlanksFrom(es', if Trim(lines[0]) == "" then blanks + 1 else if es' == es then blanks else 0, lines[1..])
  }

  /** The lines of the section `header` names, without its header line. */
  function BodyLines(contents: string, header: string): seq<string> {
    match SectionRaw(contents, header)
    case None => []
    case Some(raw) => if Lines(raw) == [] then [] else Lines(raw)[1..]
  }

  // ---------------------------------------------------------------------
  // Writing the merge
  // ---------------------------------------------------------------------

  type Field = (string, string)

  function FieldMap(f: Field): map<string, string> {
    if f.1 == "" then map[] else map[Lower(f.0) := f.1]
  }

  /** The non-blank fields by lower-cased key; a later field wins. */
  function Overrides(fields: seq<Field>): map<string, string> {
    if fields == [] then map[] else FieldMap(fields[0]) + Overrides(fields[1..])
  }

  function LowerAll(keys: seq<string>): set<string> {
    set k | k in keys :: Lower(k)
  }

  function MergeEntry(e: Entry, overrides: map<string, string>): Entry {
    if e.key in overrides then Entry(e.key, overrides[e.key], []) else e
  }

  /** The old keys that stay, with their new values. */
  function Kept(es: seq<Entry>, overrides: map<string, string>, remove: set<string>): seq<Entry> {
    if es == [] then []
    else (if es[0].key in remove then [] else [MergeEntry(es[0], overrides)]) + Kept(es[1..], overrides, remove)
  }

  function EntryKeys(es: seq<Entry>): set<string> {
    set e | e in es :: e.key
  }

  /** The fields that add a key. */
  function Added(fields: seq<Field>, emitted: set<string>, remove: set<string>): seq<Entry> {
    if fields == [] then [] else
      var (k, v) := fields[0];
      (if Lower(k) in remove || Lower(k) in emitted || v == "" then [] else [Entry(Lower(k), v, [])])
        + Added(fields[1..], emitted, remove)
  }

  function Merged(es: seq<Entry>, fields: seq<Field>, remove: set<string>): seq<Entry> {
    var kept := Kept(es, Overrides(fields), remove);
    kept + Added(fields, EntryKeys(kept), remove)
  }

  function KeyLine(e: Entry): string {
    if e.value == "" then e.key + " =" else e.key + " = " + e.value
  }

  function RenderLines(es: seq<Entry>): seq<string> {
    if es == [] then [] else [KeyLine(es[0])] + es[0].subs + RenderLines(es[1..])
  }

  /** Each line followed by a line feed. */
  function Unlines(ls: seq<string>): string {
    if ls == [] then "" else ls[0] + "\n" + Unlines(ls[1..])
  }

  function BlankLines(n: nat): seq<string> {
    seq(n, _ => "")
  }

  /** The lines `build_profile_block` writes. */
  function ProfileBlockLines(header: string, contents: string, fields: seq<Field>,
          removeKeys: seq<string>): seq<string> {
    var body := BodyLines(contents, header);
    [header] + RenderLines(Merged(ReadEntries(body), fields, LowerAll(removeKeys))) + BlankLines(BlanksFrom([], 0, body))
  }

  function ProfileBlock(header: string, contents: string, fields: seq<Field>, removeKeys: seq<string>): string {
    Unlines(ProfileBlockLines(header, contents, fields, removeKeys))
  }

  // ---------------------------------------------------------------------
  // Reading back what was written
  // ---------------------------------------------------------------------

  lemma {:induction false} ReadFromConcat(es: seq<Entry>, a: seq<string>, b: seq<string>)
    ensures ReadFrom(es, a + b) == ReadFrom(ReadFrom(es, a), b)
    decreases |a|
  {
    hide AddLine;
    if a == [] {
      assert a + b == b;
    } else {
      assert (a + b)[1..] == a[1..] + b;
      ReadFromConcat(AddLine(es, a[0]), a[1..], b);
    }
  }

  lemma {:induction false} IndexOfSplit(s: string, c: char)
    ensures c !in s[..IndexOf(s, c)]
    ensures IndexOf(s, c) < |s| ==> s[IndexOf(s, c)] == c
  {
    if s != "" && s[0] != c {
      IndexOfSplit(s[1..], c);
      assert s[..IndexOf(s, c)] == [s[0]] + s[1..][..IndexOf(s[1..], c)];
    }
  }

  lemma {:induction false} IndexOfFirst(a: string, c: char, b: string)
    requires c !in a
    ensures IndexOf(a + [c] + b, c) == |a|
    ensures IndexOf(a, c) == |a|
  {
    if a == "" {
      assert (a + [c] + b)[0] == c;
    } else {
      assert (a + [c] + b)[1..] == a[1..] + [c] + b;
      IndexOfFirst(a[1..], c, b);
    }
  }

  /** A key and a value put around `=` are read back, whatever whitespace
      surrounds them. */
  lemma {:induction false} KeyValueOf(pre: string, key: string, mid: string, post: string, value: string, end: string)
    requires AllWhitespace(pre) && AllWhitespace(mid) && AllWhitespace(post) && AllWhitespace(end)
    requires key != "" && Trimmed(key) && '=' !in key && Trimmed(value)
    ensures KeyValue(pre + key + mid + "=" + (post + value + end)) == Some((Lower(key), value))
  {
    var left, right := pre + key + mid, post + value + end;
    var line := left + "=" + right;
    assert '=' !in left by { assert !IsWhitespace('='); }
    IndexOfFirst(left, '=', right);
    assert line[..|left|] == left && line[|left| + 1..] == right;
    TrimSandwich(pre, key, mid);
    TrimSandwich(post, value, end);
  }

  /** The key of a line is its text up to the first `=`; leading and trailing
      whitespace of the line does not matter. */
  lemma {:induction false} KeyValueTrim(line: string)
    ensures KeyValue(Trim(line)) == KeyValue(line)
  {
    hide Trim;
    var a, b := TrimSplit(line);
    KeyValuePadded(a, Trim(line), b);
  }

  lemma {:induction false} KeyValuePadded(a: string, t: string, b: string)
    requires AllWhitespace(a) && AllWhitespace(b)
    ensures KeyValue(a + t + b) == KeyValue(t)
  {
    hide Trim, Lower, IndexOf;
    var n := IndexOf(t, '=');
    IndexOfSplit(t, '=');
    assert !IsWhitespace('=');
    var line := a + t + b;
    if n == |t| {
      assert t[..n] == t;
      assert '=' !in line;
      IndexOfFirst(line, '=', "");
    } else {
      var k, v := t[..n], t[n + 1..];
      assert t == k + "=" + v;
      Equals(a, k, v, b);
      IndexOfFirst(a + k, '=', v + b);
      assert line[..|a + k|] == a + k && line[|a + k| + 1..] == v + b;
      TrimPadded(a, k, "");
      assert a + k + "" == a + k;
      TrimPadded("", v, b);
      assert "" + v + b == v + b;
    }
  }

  lemma {:induction false} Equals(a: string, k: string, v: string, b: string)
    ensures a + (k + "=" + v) + b == (a + k) + "=" + (v + b)
  {
  }

  /** `l` as it is read back when a line feed is written after it. */
  function StripCr(l: string): string {
    if l != "" && l[|l| - 1] == '\r' then l[..|l| - 1] else l
  }

  function StripLines(ls: seq<string>): (r: seq<string>)
    ensures |r| == |ls|
    ensures forall i | 0 <= i < |ls| :: r[i] == StripCr(ls[i])
  {
    seq(|ls|, i requires 0 <= i < |ls| => StripCr(ls[i]))
  }

  function StripEntry(e: Entry): Entry {
    e.(subs := StripLines(e.subs))
  }

  function StripEntries(es: seq<Entry>): (r: seq<Entry>)
    ensures |r| == |es|
    ensures forall i | 0 <= i < |es| :: r[i] == StripEntry(es[i])
  {
    seq(|es|, i requires 0 <= i < |es| => StripEntry(es[i]))
  }

  predicate OneLine(l: string) {
    '\n' !in l
  }

  /** A key that can be written and read back. */
  predicate GoodKey(k: string) {
    k != "" && Trimmed(k) && Lower(k) == k && '=' !in k && OneLine(k) && k[0] != '['
  }

  predicate GoodValue(v: string) {
    Trimmed(v) && OneLine(v)
  }

  /** A line that can be a sub-property: indented, not blank, opening no section. */
  predicate GoodSub(l: string) {
    OneLine(l) && IsIndented(l) && Trim(l) != "" && !IsBracket(l)
  }

  predicate GoodEntry(e: Entry) {
    GoodKey(e.key) && GoodValue(e.value) && forall l | l in e.subs :: GoodSub(l)
  }

  predicate GoodEntries(es: seq<Entry>) {
    forall i | 0 <= i < |es| :: GoodEntry(es[i])
  }

  lemma {:induction false} KeyLineValue(e: Entry)
    requires GoodKey(e.key) && GoodValue(e.value)
    ensures KeyValue(KeyLine(e)) == Some((e.key, e.value))
  {
    hide KeyValue, Lower;
    if e.value == "" {
      KeyValueOf("", e.key, " ", "", "", "");
      assert e.key + " =" == "" + e.key + " " + "=" + ("" + "" + "");
    } else {
      KeyValueOf("", e.key, " ", " ", e.value, "");
      assert e.key + " = " + e.value == "" + e.key + " " + "=" + (" " + e.value + "");
    }
  }

  lemma {:induction false} KeyLineText(e: Entry)
    requires GoodKey(e.key) && GoodValue(e.value)
    ensures var l := KeyLine(e);
            && OneLine(l) && l != "" && l[0] == e.key[0] && Trimmed(l)
  {
    hide Lower;
    assert !IsWhitespace('=');
  }

  lemma {:induction false} KeyLineReads(e: Entry)
    requires GoodKey(e.key) && GoodValue(e.value)
    ensures var l := KeyLine(e);
            && KeyValue(l) == Some((e.key, e.value)) && OneLine(l) && StripCr(l) == l
            && Trim(l) != "" && Trim(l)[0] == e.key[0] && !IsIndented(l) && !IsBracket(l)
  {
    hide KeyValue, KeyLine, Trim, OneLine, Lower;
    KeyLineValue(e);
    KeyLineText(e);
    TrimOfTrimmed(KeyLine(e));
  }

  lemma {:induction false} KeyLineAdds(es: seq<Entry>, e: Entry)
    requires GoodKey(e.key) && GoodValue(e.value)
    ensures AddLine(es, KeyLine(e)) == es + [Entry(e.key, e.value, [])]
  {
    hide Trim, KeyValue, KeyLine, GoodKey, GoodValue;
    KeyLineReads(e);
  }

  lemma {:induction false} StripSub(l: string)
    requires GoodSub(l)
    ensures GoodSub(StripCr(l)) && Trim(StripCr(l)) == Trim(l)
  {
    var r := StripCr(l);
    TrimPadded("", r, l[|r|..]);
    assert l == "" + r + l[|r|..];
  }

  lemma {:induction false} SubAdds(es: seq<Entry>, e: Entry, l: string)
    requires GoodSub(l)
    ensures AddLine(es + [e], l) == es + [e.(subs := e.subs + [l])]
  {
    hide Trim, KeyValue, IsBracket, OneLine;
    var x := es + [e];
    assert x[..|x| - 1] == es;
  }

  lemma {:induction false} SubsAdd(es: seq<Entry>, e: Entry, ls: seq<string>)
    requires forall l | l in ls :: GoodSub(l)
    ensures ReadFrom(es + [e], StripLines(ls)) == es + [e.(subs := e.subs + StripLines(ls))]
    decreases |ls|
  {
    hide AddLine, GoodSub, StripCr;
    var rs := StripLines(ls);
    if ls == [] {
      assert e.subs + rs == e.subs;
    } else {
      assert ls[0] in ls;
      StripSub(ls[0]);
      SubAdds(es, e, rs[0]);
      StripLinesTail(ls[0], ls[1..]);
      assert ls == [ls[0]] + ls[1..];
      var e' := e.(subs := e.subs + [rs[0]]);
      SubsAdd(es, e', ls[1..]);
      ConcatAssoc(e.subs, [rs[0]], rs[1..]);
      assert rs == [rs[0]] + rs[1..];
    }
  }

  lemma {:induction false} EntryReads(es: seq<Entry>, e: Entry)
    requires GoodEntry(e)
    ensures ReadFrom(es, StripLines([KeyLine(e)] + e.subs)) == es + [StripEntry(e)]
  {
    hide AddLine, GoodSub, KeyLine, GoodKey, GoodValue;
    var ls := StripLines([KeyLine(e)] + e.subs);
    KeyLineReads(e);
    KeyLineAdds(es, e);
    assert ls[0] == KeyLine(e);
    assert ls[1..] == StripLines(e.subs);
    SubsAdd(es, Entry(e.key, e.value, []), e.subs);
    assert [] + StripLines(e.subs) == StripLines(e.subs);
  }

  lemma {:induction false} StripLinesConcat(a: seq<string>, b: seq<string>)
    ensures StripLines(a + b) == StripLines(a) + StripLines(b)
  {
    hide StripCr;
  }

  lemma {:induction false} StripLinesTail(l: string, ls: seq<string>)
    ensures StripLines([l] + ls) != [] && StripLines([l] + ls)[1..] == StripLines(ls)
  {
    hide StripCr;
  }

  /** Written keys read back one for one. */
  lemma {:induction false} EntriesRead(es: seq<Entry>, more: seq<Entry>)
    requires GoodEntries(more)
    ensures ReadFrom(es, StripLines(RenderLines(more))) == es + StripEntries(more)
    decreases |more|
  {
    hide AddLine, GoodEntry, KeyLine, ReadFrom, StripEntry;
    if more == [] {
      assert StripLines([]) == [];
      ReadFromNone(es);
    } else {
      var first, rest := [KeyLine(more[0])] + more[0].subs, RenderLines(more[1..]);
      StripLinesConcat(first, rest);
      ReadFromConcat(es, StripLines(first), StripLines(rest));
      EntryReads(es, more[0]);
      EntriesRead(es + [StripEntry(more[0])], more[1..]);
      assert [StripEntry(more[0])] + StripEntries(more[1..]) == StripEntries(more);
      ConcatAssoc(es, [StripEntry(more[0])], StripEntries(more[1..]));
    }
  }

  lemma {:induction false} ReadFromNone(es: seq<Entry>)
    ensures ReadFrom(es, []) == es
  {
  }

  lemma {:induction false} BlanksRead(es: seq<Entry>, n: nat)
    ensures ReadFrom(es, StripLines(BlankLines(n))) == es
    decreases n
  {
    if n > 0 {
      var bs := StripLines(BlankLines(n));
      assert bs[0] == "" && Trim("") == "";
      assert bs[1..] == StripLines(BlankLines(n - 1));
      BlanksRead(es, n - 1);
    }
  }

  lemma {:induction false} UnlinesConcat(a: seq<string>, b: seq<string>)
    ensures Unlines(a + b) == Unlines(a) + Unlines(b)
  {
    if a == [] {
      assert a + b == b;
    } else {
      assert (a + b)[1..] == a[1..] + b;
      UnlinesConcat(a[1..], b);
    }
  }

  function Ended(ls: seq<string>): (r: seq<string>)
    ensures |r| == |ls|
    ensures forall i | 0 <= i < |ls| :: r[i] == ls[i] + "\n"
  {
    seq(|ls|, i requires 0 <= i < |ls| => ls[i] + "\n")
  }

  lemma {:induction false} ChunksOfUnlines(ls: seq<string>)
    requires forall l | l in ls :: OneLine(l)
    ensures Chunks(Unlines(ls)) == Ended(ls)
    ensures EndsLine(Unlines(ls))
  {
    hide Chunks;
    if ls == [] {
      ChunksOfFlatten([]);
      assert Flatten([]) == "";
    } else {
      var c := ls[0] + "\n";
      assert ls[0] in ls;
      assert Terminated(c);
      ChunksOfUnlines(ls[1..]);
      ChunksCons(c, Unlines(ls[1..]));
      assert [c] + Ended(ls[1..]) == Ended(ls);
    }
  }

  lemma {:induction false} LinesOfUnlines(ls: seq<string>)
    requires forall l | l in ls :: OneLine(l)
    ensures Lines(Unlines(ls)) == StripLines(ls)
  {
    hide Chunks;
    ChunksOfUnlines(ls);
    var cs := Ended(ls);
    forall i | 0 <= i < |ls| ensures Line(cs[i]) == StripCr(ls[i]) {
      var l := ls[i];
      assert cs[i] == l + "\n";
    }
  }

  // ---------------------------------------------------------------------
  // What is read from a section can be written again
  // ---------------------------------------------------------------------

  lemma {:induction false} TrimFirst(a: string, m: string)
    requires AllWhitespace(a) && m != "" && !IsWhitespace(m[0])
    ensures Trim(a + m) != "" && Trim(a + m)[0] == m[0]
  {
    TrimStartSkips(a, m);
    var b := TrimEndSplit(m);
    assert TrimEnd(m) == "" ==> m == b;
  }

  lemma {:induction false} LowerKeepsForm(t: string)
    requires Trimmed(t) && '=' !in t && OneLine(t) && t != "" && t[0] != '['
    ensures GoodKey(Lower(t))
  {
    LowerIdempotent(t);
  }

  lemma {:induction false} ReadKeyGood(l: string)
    requires OneLine(l) && !IsBracket(l) && KeyValue(l).Some?
    ensures GoodKey(KeyValue(l).value.0) && GoodValue(KeyValue(l).value.1)
  {
    hide Trim, Lower, IndexOf, GoodKey;
    var n := IndexOf(l, '=');
    IndexOfSplit(l, '=');
    var left, right := l[..n], l[n + 1..];
    TrimTrimmed(left);
    TrimTrimmed(right);
    var a, b := TrimSplit(left);
    var t := Trim(left);
    assert t != "" by { assert t == "" ==> Lower(t) == "" by { LowerEmpty(); } }
    var m := t + b + l[n..];
    assert l == left + l[n..];
    assert l == a + m;
    assert m[0] == t[0];
    TrimFirst(a, m);
    LowerKeepsForm(t);
  }

  lemma {:induction false} LowerEmpty()
    ensures Lower("") == ""
  {
  }

  lemma {:induction false} AddLineGood(es: seq<Entry>, l: string)
    requires GoodEntries(es) && OneLine(l) && !IsBracket(l)
    ensures GoodEntries(AddLine(es, l))
  {
    hide Trim, KeyValue, GoodKey, GoodValue;
    if Trim(l) != "" && !IsIndented(l) && KeyValue(l).Some? {
      ReadKeyGood(l);
    }
  }

  lemma {:induction false} ReadFromGood(es: seq<Entry>, ls: seq<string>)
    requires GoodEntries(es) && forall l | l in ls :: OneLine(l) && !IsBracket(l)
    ensures GoodEntries(ReadFrom(es, ls))
    decreases |ls|
  {
    hide AddLine, GoodEntries, OneLine, IsBracket;
    if ls != [] {
      assert ls[0] in ls;
      AddLineGood(es, ls[0]);
      assert forall l | l in ls[1..] :: l in ls;
      ReadFromGood(AddLine(es, ls[0]), ls[1..]);
    }
  }

  /** The body of a located section, line by line. */
  lemma {:induction false} BodyLinesOf(contents: string, header: string, section: seq<string>)
    requires SectionOf(Chunks(contents), header) == Some(section)
    ensures section != [] && ChunkList(section)
    ensures BodyLines(contents, header) == Lines(Flatten(section))[1..]
    ensures |BodyLines(contents, header)| == |section| - 1
    ensures forall i | 1 <= i < |section| :: BodyLines(contents, header)[i - 1] == Line(section[i])
  {
    hide Line, HeaderIndex, BodyLength, Matches;
    var cs := Chunks(contents);
    SectionAtIndex(cs, header);
    ChunkListSlice(cs, HeaderIndex(cs, header), HeaderIndex(cs, header) + |section|);
    ChunksOfFlatten(section);
  }

  lemma {:induction false} ChunkListSlice(cs: seq<string>, i: nat, j: nat)
    requires ChunkList(cs) && i <= j <= |cs|
    ensures ChunkList(cs[i..j])
  {
    hide IsChunk, Terminated;
  }

  lemma {:induction false} LineOneLine(c: string)
    requires IsChunk(c)
    ensures OneLine(Line(c)) && IsBracket(Line(c)) == IsBracket(c)
  {
    hide Trim;
    TrimLine(c);
  }

  lemma {:induction false} SectionBody(cs: seq<string>, header: string, section: seq<string>)
    requires IsHeaderName(header) && SectionOf(cs, header) == Some(section)
    ensures OneSection(section, header)
  {
    hide Matches, IsBracket, HeaderIndex, BodyLength;
    SectionAtIndex(cs, header);
    SectionBounds(cs, header);
  }

  lemma {:induction false} BodyLinesPlain(contents: string, header: string)
    requires IsHeaderName(header)
    ensures forall l | l in BodyLines(contents, header) :: OneLine(l) && !IsBracket(l)
  {
    hide Line, IsBracket, OneLine, Matches, BodyLines, Chunks;
    var ls := BodyLines(contents, header);
    match SectionOf(Chunks(contents), header) {
      case None =>
        NoBodyLines(contents, header);
      case Some(section) =>
        BodyLinesOf(contents, header, section);
        SectionBody(Chunks(contents), header, section);
        forall i | 0 <= i < |ls| ensures OneLine(ls[i]) && !IsBracket(ls[i]) {
          assert ls[i] == Line(section[i + 1]);
          LineOneLine(section[i + 1]);
        }
    }
  }

  lemma {:induction false} NoBodyLines(contents: string, header: string)
    requires SectionOf(Chunks(contents), header) == None
    ensures BodyLines(contents, header) == []
  {
  }

  /** The keys of any section are fit to be written. */
  lemma {:induction false} SectionEntriesGood(contents: string, header: string)
    requires IsHeaderName(header)
    ensures GoodEntries(ReadEntries(BodyLines(contents, header)))
  {
    hide BodyLines, ReadFrom, OneLine, IsBracket;
    BodyLinesPlain(contents, header);
    ReadFromGood([], BodyLines(contents, header));
  }

  /** New fields must be one-line, trimmed values under keys that read back. */
  predicate GoodFields(fields: seq<Field>) {
    forall i | 0 <= i < |fields| :: fields[i].1 != "" ==> GoodKey(Lower(fields[i].0)) && GoodValue(fields[i].1)
  }

  lemma {:induction false} OverridesGood(fields: seq<Field>)
    requires GoodFields(fields)
    ensures forall k | k in Overrides(fields) :: GoodValue(Overrides(fields)[k])
  {
    hide GoodKey, GoodValue, Lower;
    if fields != [] {
      OverridesGood(fields[1..]);
      var first := FieldMap(fields[0]);
      assert forall k | k in first :: GoodValue(first[k]);
    }
  }

  lemma {:induction false} KeptGood(es: seq<Entry>, overrides: map<string, string>, remove: set<string>)
    requires GoodEntries(es) && forall k | k in overrides :: GoodValue(overrides[k])
    ensures GoodEntries(Kept(es, overrides, remove))
  {
    hide GoodKey, GoodValue, GoodSub;
    if es != [] {
      KeptGood(es[1..], overrides, remove);
      assert GoodEntry(es[0]);
      assert GoodEntry(MergeEntry(es[0], overrides));
    }
  }

  lemma {:induction false} AddedGood(fields: seq<Field>, emitted: set<string>, remove: set<string>)
    requires GoodFields(fields)
    ensures GoodEntries(Added(fields, emitted, remove))
  {
    hide GoodKey, GoodValue, Lower;
    if fields != [] {
      AddedGood(fields[1..], emitted, remove);
    }
  }

  lemma {:induction false} MergedGood(es: seq<Entry>, fields: seq<Field>, remove: set<string>)
    requires GoodEntries(es) && GoodFields(fields)
    ensures GoodEntries(Merged(es, fields, remove))
  {
    hide GoodEntry, GoodFields, Kept, Added, Overrides, GoodValue;
    OverridesGood(fields);
    var kept := Kept(es, Overrides(fields), remove);
    KeptGood(es, Overrides(fields), remove);
    AddedGood(fields, EntryKeys(kept), remove);
  }

  // ---------------------------------------------------------------------
  // The written block
  // ---------------------------------------------------------------------

  predicate GoodHeader(header: string) {
    |header| >= 2 && header[0] == '[' && header[|header| - 1] == ']' && OneLine(header)
  }

  lemma {:induction false} RenderPlain(es: seq<Entry>)
    requires GoodEntries(es)
    ensures forall l | l in RenderLines(es) :: OneLine(l) && !IsBracket(l)
  {
    hide KeyLine, IsBracket, OneLine, GoodKey, GoodValue;
    if es != [] {
      RenderPlain(es[1..]);
      assert GoodEntry(es[0]);
      KeyLineReads(es[0]);
    }
  }

  lemma {:induction false} BlankLinesPlain(n: nat)
    ensures forall l | l in BlankLines(n) :: OneLine(l) && !IsBracket(l)
  {
    assert Trim("") == "";
  }

  predicate PlainAfterFirst(ls: seq<string>) {
    forall i | 1 <= i < |ls| :: !IsBracket(ls[i])
  }

  lemma {:induction false} BlockLinesPlain(header: string, es: seq<Entry>, n: nat)
    requires GoodHeader(header) && GoodEntries(es)
    ensures var ls := [header] + RenderLines(es) + BlankLines(n);
            && (forall l | l in ls :: OneLine(l))
            && PlainAfterFirst(ls)
  {
    hide IsBracket, OneLine, GoodEntries, RenderLines, BlankLines;
    RenderPlain(es);
    BlankLinesPlain(n);
    var tail := RenderLines(es) + BlankLines(n);
    var ls := [header] + RenderLines(es) + BlankLines(n);
    ConcatAssoc([header], RenderLines(es), BlankLines(n));
    assert ls == [header] + tail;
    forall i | 1 <= i < |ls| ensures !IsBracket(ls[i]) && OneLine(ls[i]) {
      assert ls[i] == tail[i - 1];
      assert tail[i - 1] in RenderLines(es) || tail[i - 1] in BlankLines(n);
    }
    assert OneLine(header) by { assert GoodHeader(header); }
  }

  /** A written block is one whole section: no line of it but the first can open
      another. */
  lemma {:induction false} BlockIsSection(header: string, es: seq<Entry>, n: nat)
    requires GoodHeader(header) && GoodEntries(es)
    ensures IsBlock(Unlines([header] + RenderLines(es) + BlankLines(n)), header)
  {
    hide IsBracket, OneLine, GoodEntries, RenderLines, BlankLines, Chunks;
    BlockLinesPlain(header, es, n);
    LinesAreSection(header, [header] + RenderLines(es) + BlankLines(n));
  }

  lemma {:induction false} LinesAreSection(header: string, ls: seq<string>)
    requires GoodHeader(header) && ls != [] && ls[0] == header
    requires (forall l | l in ls :: OneLine(l)) && PlainAfterFirst(ls)
    ensures IsBlock(Unlines(ls), header)
  {
    hide IsBracket, OneLine, Chunks, Trim;
    ChunksOfUnlines(ls);
    var cs := Ended(ls);
    forall i | 0 <= i < |ls| ensures Trim(cs[i]) == Trim(ls[i]) {
      TrimPadded("", ls[i], "\n");
      assert "" + ls[i] + "\n" == cs[i];
    }
    TrimOfTrimmed(header);
    forall i | 1 <= i < |cs| ensures !IsBracket(cs[i]) {
      assert !IsBracket(ls[i]);
      SameBracket(cs[i], ls[i]);
    }
  }

  lemma {:induction false} SameBracket(c: string, d: string)
    requires Trim(c) == Trim(d)
    ensures IsBracket(c) == IsBracket(d)
  {
  }

  /** Reading a written block gives back the keys that were written. */
  lemma {:induction false} BlockReads(header: string, es: seq<Entry>, n: nat)
    requires GoodHeader(header) && GoodEntries(es)
    ensures var ls := Lines(Unlines([header] + RenderLines(es) + BlankLines(n)));
            ls != [] && ReadEntries(ls[1..]) == StripEntries(es)
  {
    hide IsBracket, OneLine, GoodEntries, RenderLines, BlankLines, Chunks, Trim, ReadFrom, StripEntries, Lines,
         StripLines, Unlines;
    var ls := [header] + RenderLines(es) + BlankLines(n);
    BlockLinesPlain(header, es, n);
    LinesOfUnlines(ls);
    ConcatAssoc([header], RenderLines(es), BlankLines(n));
    StripLinesTail(header, RenderLines(es) + BlankLines(n));
    StripLinesConcat(RenderLines(es), BlankLines(n));
    ReadFromConcat([], StripLines(RenderLines(es)), StripLines(BlankLines(n)));
    EntriesRead([], es);
    assert [] + StripEntries(es) == StripEntries(es);
    BlanksRead(StripEntries(es), n);
  }

  /** The merge-write reads back as the merge, sub-properties included; only a
      carriage return ending a sub-property line becomes part of its line break. */
  lemma {:induction false} ProfileBlockReadsBack(header: string, contents: string, fields: seq<Field>,
          removeKeys: seq<string>)
    requires GoodHeader(header) && GoodFields(fields)
    ensures var before := ReadEntries(BodyLines(contents, header));
            var ls := Lines(ProfileBlock(header, contents, fields, removeKeys));
            && ls != []
            && ReadEntries(ls[1..]) == StripEntries(Merged(before, fields, LowerAll(removeKeys)))
            && IsBlock(ProfileBlock(header, contents, fields, removeKeys), header)
  {
    hide ReadEntries, BodyLines, Merged, RenderLines, BlankLines, StripEntries, GoodEntries, GoodFields, BlanksFrom;
    SectionEntriesGood(contents, header);
    var before := ReadEntries(BodyLines(contents, header));
    MergedGood(before, fields, LowerAll(removeKeys));
    BlockReads(header, Merged(before, fields, LowerAll(removeKeys)), BlanksFrom([], 0, BodyLines(contents, header)));
    BlockIsSection(header, Merged(before, fields, LowerAll(removeKeys)), BlanksFrom([], 0, BodyLines(contents, header)));
  }

  // ---------------------------------------------------------------------
  // What the merge means for the key map
  // ---------------------------------------------------------------------

  /** The last value of each top-level key. */
  function TopKeys(es: seq<Entry>): map<string, string> {
    if es == [] then map[] else map[es[0].key := es[0].value] + TopKeys(es[1..])
  }

  lemma {:induction false} TopKeysConcat(a: seq<Entry>, b: seq<Entry>)
    ensures TopKeys(a + b) == TopKeys(a) + TopKeys(b)
  {
    if a == [] {
      assert a + b == b;
    } else {
      assert (a + b)[1..] == a[1..] + b;
      TopKeysConcat(a[1..], b);
      MapAssoc(map[a[0].key := a[0].value], TopKeys(a[1..]), TopKeys(b));
    }
  }

  lemma {:induction false} TopKeysDomain(es: seq<Entry>)
    ensures TopKeys(es).Keys == EntryKeys(es)
  {
    if es != [] {
      TopKeysDomain(es[1..]);
      assert EntryKeys(es) == {es[0].key} + EntryKeys(es[1..]) by {
        assert es == [es[0]] + es[1..];
      }
    }
  }

  function KeptMap(m: map<string, string>, overrides: map<string, string>, remove: set<string>): map<string, string> {
    map k | k in m && k !in remove :: if k in overrides then overrides[k] else m[k]
  }

  lemma {:induction false} TopKeysKept(es: seq<Entry>, overrides: map<string, string>, remove: set<string>)
    ensures TopKeys(Kept(es, overrides, remove)) == KeptMap(TopKeys(es), overrides, remove)
  {
    if es != [] {
      var e := es[0];
      TopKeysKept(es[1..], overrides, remove);
      var first := if e.key in remove then [] else [MergeEntry(e, overrides)];
      TopKeysConcat(first, Kept(es[1..], overrides, remove));
      KeptMapSum(map[e.key := e.value], TopKeys(es[1..]), overrides, remove);
      TopKeysOne(first, e, overrides, remove);
    }
  }

  lemma {:induction false} TopKeysOne(first: seq<Entry>, e: Entry, overrides: map<string, string>,
          remove: set<string>)
    requires first == if e.key in remove then [] else [MergeEntry(e, overrides)]
    ensures TopKeys(first) == KeptMap(map[e.key := e.value], overrides, remove)
  {
    if e.key !in remove {
      assert TopKeys(first) == map[first[0].key := first[0].value] + TopKeys(first[1..]);
    }
  }

  lemma {:induction false} KeptMapSum(a: map<string, string>, b: map<string, string>, overrides: map<string, string>,
          remove: set<string>)
    ensures KeptMap(a + b, overrides, remove) == KeptMap(a, overrides, remove) + KeptMap(b, overrides, remove)
  {
  }

  /** The entry a single field adds, if any. */
  function AddedOne(f: Field, drop: set<string>): seq<Entry> {
    if Lower(f.0) in drop || f.1 == "" then [] else [Entry(Lower(f.0), f.1, [])]
  }

  lemma {:induction false} TopKeysAddedOne(f: Field, drop: set<string>)
    ensures TopKeys(AddedOne(f, drop)) == FieldMap(f) - drop
  {
    hide Lower;
    var first := AddedOne(f, drop);
    if first != [] {
      assert TopKeys(first) == map[Lower(f.0) := f.1] + TopKeys(first[1..]);
    }
  }

  lemma {:induction false} TopKeysAdded(fields: seq<Field>, emitted: set<string>, remove: set<string>)
    ensures TopKeys(Added(fields, emitted, remove)) == Overrides(fields) - (remove + emitted)
  {
    hide Lower, TopKeys, FieldMap;
    var drop := remove + emitted;
    if fields == [] {
      NoTopKeys();
    } else {
      TopKeysAdded(fields[1..], emitted, remove);
      assert Added(fields, emitted, remove) == AddedOne(fields[0], drop) + Added(fields[1..], emitted, remove);
      TopKeysConcat(AddedOne(fields[0], drop), Added(fields[1..], emitted, remove));
      TopKeysAddedOne(fields[0], drop);
      MapMinus(FieldMap(fields[0]), Overrides(fields[1..]), drop);
    }
  }

  lemma {:induction false} NoTopKeys()
    ensures TopKeys([]) == map[]
  {
  }

  lemma {:induction false} MapMinus(a: map<string, string>, b: map<string, string>, s: set<string>)
    ensures (a + b) - s == (a - s) + (b - s)
  {
  }

  /** Merge semantics: after the write the section holds the old keys, overridden
      by the non-blank fields and without the removed keys. Blank fields preserve. */
  lemma {:induction false} MergedKeys(es: seq<Entry>, fields: seq<Field>, remove: set<string>)
    ensures TopKeys(Merged(es, fields, remove)) == (TopKeys(es) + Overrides(fields)) - remove
  {
    hide TopKeys, Overrides, Kept, Added, EntryKeys;
    var o := Overrides(fields);
    var kept := Kept(es, o, remove);
    TopKeysKept(es, o, remove);
    TopKeysDomain(kept);
    TopKeysAdded(fields, EntryKeys(kept), remove);
    TopKeysConcat(kept, Added(fields, EntryKeys(kept), remove));
    KeptPlusAdded(TopKeys(es), o, remove);
  }

  lemma {:induction false} KeptPlusAdded(m: map<string, string>, o: map<string, string>, remove: set<string>)
    ensures KeptMap(m, o, remove) + (o - (remove + KeptMap(m, o, remove).Keys)) == (m + o) - remove
  {
  }

  lemma {:induction false} TopKeysStrip(es: seq<Entry>)
    ensures TopKeys(StripEntries(es)) == TopKeys(es)
  {
    hide StripLines;
    if es != [] {
      TopKeysStrip(es[1..]);
      assert StripEntries(es)[1..] == StripEntries(es[1..]);
    }
  }

  /** The main law of the profile merge-writer, stated on the text: what a reader
      finds at top level in the written section. */
  lemma {:induction false} ProfileBlockMeaning(header: string, contents: string, fields: seq<Field>,
          removeKeys: seq<string>)
    requires GoodHeader(header) && GoodFields(fields)
    ensures var before := ReadEntries(BodyLines(contents, header));
            var ls := Lines(ProfileBlock(header, contents, fields, removeKeys));
            && ls != []
            && TopKeys(ReadEntries(ls[1..])) == (TopKeys(before) + Overrides(fields)) - LowerAll(removeKeys)
  {
    hide ReadEntries, BodyLines, Merged, TopKeys, StripEntries, Overrides, LowerAll, ProfileBlock, GoodFields,
         GoodHeader, Lines;
    ProfileBlockReadsBack(header, contents, fields, removeKeys);
    var before := ReadEntries(BodyLines(contents, header));
    TopKeysStrip(Merged(before, fields, LowerAll(removeKeys)));
    MergedKeys(before, fields, LowerAll(removeKeys));
  }
}
