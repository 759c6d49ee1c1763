/** Which key of a section fills which field of an entry. */
module ProfileFields {
  import opened Text
  import opened Sections
  import opened AwsParser
  import opened MergeWriter
  import opened ProfileWriter
  import opened ProfileKeys
  import opened EndpointMeaning
  import opened ProfileMeaning

  const KEYS: seq<string> := [
    "region", "sso_start_url", "sso_region", "sso_account_id", "sso_role_name", "services", "sso_session"
  ]

  /** The field named by a key. */
  function FieldNamed(p: ProfileInfo, key: string): Option<string> {
    if key == "region" then p.region
    else if key == "sso_start_url" then p.ssoStartUrl
    else if key == "sso_region" then p.ssoRegion
    else if key == "sso_account_id" then p.ssoAccountId
    else if key == "sso_role_name" then p.ssoRoleName
    else if key == "services" then p.services
    else if key == "sso_session" then p.ssoSession
    else None
  }

  /** Two entries with the same fields, names, kinds and endpoints are the same. */
  lemma {:induction false} FieldsDecide(p: ProfileInfo, q: ProfileInfo)
    requires forall key | key in KEYS :: FieldNamed(p, key) == FieldNamed(q, key)
    requires p.name == q.name && p.isSsoSession == q.isSsoSession && p.isSso == q.isSso && p.endpointUrl == q.endpointUrl
    ensures p == q
  {
    KeysAre();
    forall i | 0 <= i < |KEYS| ensures FieldNamed(p, KEYS[i]) == FieldNamed(q, KEYS[i]) { assert KEYS[i] in KEYS; }
    assert FieldNamed(p, KEYS[0]) == FieldNamed(q, KEYS[0]) && FieldNamed(p, KEYS[1]) == FieldNamed(q, KEYS[1]);
    assert FieldNamed(p, KEYS[2]) == FieldNamed(q, KEYS[2]) && FieldNamed(p, KEYS[3]) == FieldNamed(q, KEYS[3]);
    assert FieldNamed(p, KEYS[4]) == FieldNamed(q, KEYS[4]) && FieldNamed(p, KEYS[5]) == FieldNamed(q, KEYS[5]);
    assert FieldNamed(p, KEYS[6]) == FieldNamed(q, KEYS[6]);
  }

  /** The seven keys differ. */
  lemma {:induction false} KeysAre()
    ensures "region" != "sso_start_url" && "region" != "sso_region" && "region" != "services" && "region" != "sso_session"
    ensures "sso_start_url" != "sso_role_name" && "sso_region" != "sso_session"
  {
    assert "sso_start_url"[4] == 's' && "sso_role_name"[4] == 'r';
    assert |"region"| == 6 && |"sso_start_url"| == 13 && |"sso_region"| == 10 && |"services"| == 8 && |"sso_session"| == 11;
  }

  lemma {:induction false} KeyLengths(key: string)
    requires key in KEYS
    ensures |"region"| == 6 && |"sso_start_url"| == 13 && |"sso_region"| == 10 && |"sso_account_id"| == 14 && |"services"| == 8
    ensures |"sso_role_name"| == 13 && |"sso_session"| == 11 && "sso_start_url" != "sso_role_name"
    ensures || key == "region" || key == "sso_start_url" || key == "sso_region" || key == "sso_account_id"
            || key == "sso_role_name" || key == "services" || key == "sso_session"
  {
    KeysAre();
  }

  /** What an entry made from a section says. */
  ghost predicate Describes(p: ProfileInfo, name: string, session: bool, keys: map<string, string>) {
    && p.name == name && p.isSsoSession == session
    && (forall key | key in KEYS :: FieldNamed(p, key) == if key in keys then Some(keys[key]) else None)
    && (p.isSso <==> session || "sso_start_url" in keys || "sso_session" in keys)
  }

  lemma {:induction false} FromDescribes(name: string, session: bool, keys: map<string, string>, doc: seq<Section>)
    ensures Describes(ProfileFrom(name, session, keys), name, session, keys)
    ensures Describes(Resolve(ProfileFrom(name, session, keys), doc), name, session, keys)
  {
    hide EndpointsOf, UrlOf, Lower;
    var p := ProfileFrom(name, session, keys);
    forall key | key in KEYS ensures FieldNamed(p, key) == if key in keys then Some(keys[key]) else None { KeyLengths(key); }
    SameFields(p, Resolve(p, doc).endpointUrl);
    assert Resolve(p, doc) == p.(endpointUrl := Resolve(p, doc).endpointUrl);
  }

  lemma {:induction false} SameFields(p: ProfileInfo, url: Option<string>)
    ensures forall key :: FieldNamed(p.(endpointUrl := url), key) == FieldNamed(p, key)
  {
  }

  /** The section an entry comes from, and what it says of it: each field is the last
      value its key has there. */
  lemma {:induction false} EntryDescribes(contents: string, i: nat) returns (d: nat)
    requires i < |Parse(contents)|
    ensures var doc, p := Doc(Chunks(contents)), Parse(contents)[i];
            && d < |doc| && |Entries(doc[..d])| == i
            && HeaderKind(doc[d].header) == Some(if p.isSsoSession then SsoSession(p.name) else Profile(p.name))
            && Describes(p, p.name, p.isSsoSession, doc[d].keys)
            && p.endpointUrl == UrlFor(doc, p)
  {
    hide Chunks, Doc, HeaderKind, Describes, EndpointsOf, UrlOf, Lower, Entries;
    var doc := Doc(Chunks(contents));
    d := EntrySection(doc, i);
    var s, e := doc[d], Entries(doc)[i];
    match HeaderKind(s.header) {
      case Some(Profile(name)) => FromDescribes(name, false, s.keys, doc);
      case Some(SsoSession(name)) => FromDescribes(name, true, s.keys, doc);
      case _ =>
    }
    assert Parse(contents)[i] == Resolve(e, doc);
  }

  /** The last line with a key, or the number of lines. */
  function LastWith(lines: seq<string>, key: string): (k: nat)
    ensures k <= |lines|
  {
    if lines == [] then 0 else
      var n := |lines| - 1;
      if key in LineKeys(lines[n]) then n else
        var k := LastWith(lines[..n], key);
        if k == n then |lines| else k
  }

  /** A section has the value of the last line that gives it. */
  lemma {:induction false} LastValueWins(lines: seq<string>, key: string)
    ensures var k := LastWith(lines, key);
            && (key in Keys(lines) <==> k < |lines|)
            && (k < |lines| ==> key in LineKeys(lines[k]) && Keys(lines)[key] == LineKeys(lines[k])[key])
    decreases |lines|
  {
    hide LineKeys, Keys;
    if lines == [] {
      NoKeys();
    } else {
      var n := |lines| - 1;
      LastValueWins(lines[..n], key);
      assert lines == lines[..n] + [lines[n]];
      KeysConcat(lines[..n], [lines[n]]);
      KeysOne(lines[n]);
    }
  }

  // ---------------------------------------------------------------------
  // Writing a field
  // ---------------------------------------------------------------------

  /** Writing any fields to a profile that is there: each field of the entry is the one
      written, none if its key is removed, and else as it was. */
  lemma {:induction false} WriteSetsFields(contents: string, profileName: string, t: nat, fields: seq<Field>,
          removeKeys: seq<string>, key: string)
    requires WellFormed(contents) && TargetAt(contents, profileName, t) && GoodFields(fields)
    requires TidyWrite(contents, ProfileHeader(profileName), fields, removeKeys) && key in KEYS
    ensures var before, after := Parse(contents), Parse(WithProfileBlock(contents, profileName, fields, removeKeys));
            && |after| == |before| && t < |before|
            && FieldNamed(after[t], key) == (if key in LowerAll(removeKeys) then None
                                        else if key in Overrides(fields) then Some(Overrides(fields)[key])
                                        else FieldNamed(before[t], key))
            && (after[t].isSso <==> after[t].ssoStartUrl.Some? || after[t].ssoSession.Some?) && !after[t].isSsoSession
            && after[t].name == CanonName(profileName)
            && (forall i | 0 <= i < |before| && i != t :: after[i] == before[i])
  {
    hide Chunks, Doc, ProfileHeader, WellFormed, GoodFields, TidyWrite, TargetAt, SectionKeys, WithProfileBlock,
         ProfileFrom, Resolve, Parse, Overrides, LowerAll;
    WriteMeansMerge(contents, profileName, t, fields, removeKeys);
    var before := Parse(contents);
    var keys, doc := SectionKeys(contents, ProfileHeader(profileName)), Doc(Chunks(contents));
    FromDescribes(before[t].name, false, keys, doc);
    FromDescribes(CanonName(profileName), false, WrittenKeys(keys, fields, removeKeys), doc);
    KeyIsVisible(key);
    SsoKeys();
  }

  lemma {:induction false} KeyIsVisible(key: string)
    requires key in KEYS
    ensures key != "" && key[0] != '#'
  {
  }

  lemma {:induction false} SsoKeys()
    ensures "sso_start_url" in KEYS && "sso_session" in KEYS
  {
    assert KEYS[1] == "sso_start_url" && KEYS[6] == "sso_session";
  }

  /** Writing one field changes that field and no other. */
  lemma {:induction false} WriteSetsOneField(contents: string, profileName: string, t: nat, name: string,
          value: string,
          key: string)
    requires WellFormed(contents) && TargetAt(contents, profileName, t) && name in KEYS && key in KEYS && value != "" && GoodValue(value)
    requires TidyWrite(contents, ProfileHeader(profileName), [(name, value)], [])
    ensures var before, after := Parse(contents), Parse(WithProfileBlock(contents, profileName, [(name, value)], []));
            && |after| == |before| && t < |before|
            && FieldNamed(after[t], key) == if key == name then Some(value) else FieldNamed(before[t], key)
  {
    hide Chunks, ProfileHeader, WellFormed, TidyWrite, TargetAt, WithProfileBlock, Parse, GoodValue, GoodFields,
         Overrides, LowerAll;
    OneFieldGood(name, value);
    WriteSetsFields(contents, profileName, t, [(name, value)], [], key);
  }

  lemma {:induction false} OneFieldGood(name: string, value: string)
    requires name in KEYS && value != "" && GoodValue(value)
    ensures GoodFields([(name, value)]) && Overrides([(name, value)]) == map[name := value] && LowerAll([]) == {}
  {
    hide Lower, GoodValue, GoodKey;
    KeyIsGood(name);
    var fields := [(name, value)];
    assert fields[1..] == [];
    assert Overrides(fields) == FieldMap(fields[0]) + Overrides([]);
  }

  /** Only small letters and underscores. */
  predicate Plain(key: string) {
    forall i | 0 <= i < |key| :: key[i] == '_' || 'a' <= key[i] <= 'z'
  }

  lemma {:induction false} PlainIsGood(key: string)
    requires Plain(key) && key != ""
    ensures Lower(key) == key && GoodKey(key)
  {
    assert Lower(key) == key;
  }

  lemma {:induction false} KeyIsGood(name: string)
    requires name in KEYS
    ensures Lower(name) == name && GoodKey(name)
  {
    hide Lower, GoodKey;
    assert Plain("region") && Plain("sso_start_url") && Plain("sso_region") && Plain("sso_account_id");
    assert Plain("sso_role_name") && Plain("services") && Plain("sso_session");
    KeyLengths(name);
    PlainIsGood(name);
  }

  /** A new profile has the fields it is written with. */
  lemma {:induction false} AppendSetsFields(contents: string, profileName: string, fields: seq<Field>,
          removeKeys: seq<string>)
    requires GoodName(profileName) && GoodFields(fields) && SectionOf(Chunks(contents), ProfileHeader(profileName)).None?
    ensures var after := Parse(WithProfileBlock(contents, profileName, fields, removeKeys));
            && |after| == |Parse(contents)| + 1 && after[..|after| - 1] == Parse(contents)
            && Describes(after[|after| - 1], CanonName(profileName), false, WrittenKeys(map[], fields, removeKeys))
  {
    hide Chunks, Doc, ProfileHeader, GoodName, GoodFields, SectionOf, WithProfileBlock, ProfileFrom, Resolve, Parse,
         WrittenKeys, Describes;
    WriteAppends(contents, profileName, fields, removeKeys);
    FromDescribes(CanonName(profileName), false, WrittenKeys(map[], fields, removeKeys), Doc(Chunks(contents)));
  }
}
