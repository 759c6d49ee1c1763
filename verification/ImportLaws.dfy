/** What the calls and the outcome of an import say of its actions: everything given is
    asked for once and in order, and each list of the outcome holds exactly its own. */
module ImportLaws {
  import opened Text
  import opened Places
  import opened Uuids
  import opened MergeWriter
  import opened ImportPersistence

  // ---------------------------------------------------------------------
  // The calls of one kind, in order
  // ---------------------------------------------------------------------

  /** What the events of one kind name, in order. */
  function Pick<T>(events: seq<Event>, kind: Event -> Option<T>): seq<T> {
    if events == [] then [] else (if kind(events[0]).Some? then [kind(events[0]).value] else []) + Pick(events[1..], kind)
  }

  const AUTH: Event -> Option<Auth> := (e: Event) => if e.AddAuth? then Some(e.auth) else None
  const SSH: Event -> Option<string> := (e: Event) => if e.AddSsh? then Some(e.name) else None
  const PROXY: Event -> Option<string> := (e: Event) => if e.AddProxy? then Some(e.name) else None
  const CONNECTION: Event -> Option<Connection> := (e: Event) => if e.AddConnection? then Some(e.connection) else None
  const SECRET: Event -> Option<Secret> := (e: Event) => if e.WriteSecret? then Some(e.secret) else None

  lemma {:induction false} PickConcat<T>(a: seq<Event>, b: seq<Event>, kind: Event -> Option<T>)
    ensures Pick(a + b, kind) == Pick(a, kind) + Pick(b, kind)
    decreases |a|
  {
    if a == [] {
      assert a + b == b;
    } else {
      assert (a + b)[1..] == a[1..] + b && (a + b)[0] == a[0];
      PickConcat(a[1..], b, kind);
      ConcatAssoc(if kind(a[0]).Some? then [kind(a[0]).value] else [], Pick(a[1..], kind), Pick(b, kind));
    }
  }

  lemma {:induction false} PickNone<T>(events: seq<Event>, kind: Event -> Option<T>)
    requires forall i | 0 <= i < |events| :: kind(events[i]).None?
    ensures Pick(events, kind) == []
  {
    if events != [] { PickNone(events[1..], kind); }
  }

  lemma {:induction false} PickAll<T>(events: seq<Event>, kind: Event -> Option<T>, values: seq<T>)
    requires |events| == |values| && forall i | 0 <= i < |events| :: kind(events[i]) == Some(values[i])
    ensures Pick(events, kind) == values
  {
    if events != [] {
      PickAll(events[1..], kind, values[1..]);
      assert values == [values[0]] + values[1..];
    }
  }

  /** The calls of each kind among these events. */
  ghost predicate Kinds(events: seq<Event>, auths: seq<Auth>, ssh: seq<string>, proxies: seq<string>,
          connections: seq<Connection>, secrets: seq<Secret>) {
    && Pick(events, AUTH) == auths && Pick(events, SSH) == ssh && Pick(events, PROXY) == proxies
    && Pick(events, CONNECTION) == connections && Pick(events, SECRET) == secrets
  }

  lemma {:induction false} KindsConcat(a: seq<Event>, b: seq<Event>)
    ensures Kinds(a + b, Pick(a, AUTH) + Pick(b, AUTH), Pick(a, SSH) + Pick(b, SSH), Pick(a, PROXY) + Pick(b, PROXY),
                  Pick(a, CONNECTION) + Pick(b, CONNECTION), Pick(a, SECRET) + Pick(b, SECRET))
  {
    hide Pick;
    PickConcat(a, b, AUTH);
    PickConcat(a, b, SSH);
    PickConcat(a, b, PROXY);
    PickConcat(a, b, CONNECTION);
    PickConcat(a, b, SECRET);
  }

  lemma {:induction false} AuthKinds(auths: seq<Auth>, fields: map<Uuid, map<string, string>>)
    ensures Kinds(AuthEvents(auths, fields), auths, [], [], [], [])
    decreases |auths|
  {
    hide Pick;
    if auths == [] {
      NoKinds();
    } else {
      var n := |auths| - 1;
      var last := auths[n];
      AuthKinds(auths[..n], fields);
      var more := [AddAuth(last)] + if last.id in fields then [Hydrate(last.id, fields[last.id])] else [];
      KindsConcat(AuthEvents(auths[..n], fields), more);
      AddedKinds(last, fields);
      assert auths == auths[..n] + [last];
    }
  }

  lemma {:induction false} NoKinds()
    ensures Kinds([], [], [], [], [], [])
  {
  }

  lemma {:induction false} AddedKinds(last: Auth, fields: map<Uuid, map<string, string>>)
    ensures Kinds([AddAuth(last)] + (if last.id in fields then [Hydrate(last.id, fields[last.id])] else []), [last], [], [], [], [])
  {
    hide Pick;
    var tail := if last.id in fields then [Hydrate(last.id, fields[last.id])] else [];
    var all := [AddAuth(last)] + tail;
    PickConcat([AddAuth(last)], tail, AUTH);
    PickAll([AddAuth(last)], AUTH, [last]);
    PickNone(tail, AUTH);
    PickNone(all, SSH);
    PickNone(all, PROXY);
    PickNone(all, CONNECTION);
    PickNone(all, SECRET);
  }

  lemma {:induction false} SshKinds(names: seq<string>)
    ensures Kinds(SshEvents(names), [], names, [], [], [])
  {
    hide Pick;
    PickAll(SshEvents(names), SSH, names);
    PickNone(SshEvents(names), AUTH);
    PickNone(SshEvents(names), PROXY);
    PickNone(SshEvents(names), CONNECTION);
    PickNone(SshEvents(names), SECRET);
  }

  lemma {:induction false} ProxyKinds(names: seq<string>)
    ensures Kinds(ProxyEvents(names), [], [], names, [], [])
  {
    hide Pick;
    PickAll(ProxyEvents(names), PROXY, names);
    PickNone(ProxyEvents(names), AUTH);
    PickNone(ProxyEvents(names), SSH);
    PickNone(ProxyEvents(names), CONNECTION);
    PickNone(ProxyEvents(names), SECRET);
  }

  lemma {:induction false} ConnectionKinds(connections: seq<Connection>)
    ensures Kinds(ConnectionEvents(connections), [], [], [], connections, [])
  {
    hide Pick;
    PickAll(ConnectionEvents(connections), CONNECTION, connections);
    PickNone(ConnectionEvents(connections), AUTH);
    PickNone(ConnectionEvents(connections), SSH);
    PickNone(ConnectionEvents(connections), PROXY);
    PickNone(ConnectionEvents(connections), SECRET);
  }

  lemma {:induction false} SecretKinds(secrets: seq<Secret>)
    ensures Kinds(SecretEvents(secrets), [], [], [], [], secrets)
  {
    hide Pick;
    PickAll(SecretEvents(secrets), SECRET, secrets);
    PickNone(SecretEvents(secrets), AUTH);
    PickNone(SecretEvents(secrets), SSH);
    PickNone(SecretEvents(secrets), PROXY);
    PickNone(SecretEvents(secrets), CONNECTION);
  }

  lemma {:induction false} TraceKinds(actions: Actions, deps: Deps)
    ensures Kinds(Trace(actions, deps), actions.authProfiles, actions.sshTunnels, actions.proxies, actions.connections,
                  Attempted(actions.secretWrites, Skipped(actions.connections, |actions.connections|, deps)))
  {
    hide AuthEvents, SshEvents, ProxyEvents, ConnectionEvents, SecretEvents, Pick, AuthFields, Attempted, Skipped;
    var attempted := Attempted(actions.secretWrites, Skipped(actions.connections, |actions.connections|, deps));
    var a := AuthEvents(actions.authProfiles, AuthFields(actions.secretWrites, deps));
    var b, c, d, e := SshEvents(actions.sshTunnels), ProxyEvents(actions.proxies), ConnectionEvents(actions.connections),
                      SecretEvents(attempted);
    AuthKinds(actions.authProfiles, AuthFields(actions.secretWrites, deps));
    SshKinds(actions.sshTunnels);
    ProxyKinds(actions.proxies);
    ConnectionKinds(actions.connections);
    SecretKinds(attempted);
    KindsConcat(a, b);
    KindsConcat(a + b, c);
    KindsConcat(a + b + c, d);
    KindsConcat(a + b + c + d, e);
  }

  // ---------------------------------------------------------------------
  // Lists of the outcome
  // ---------------------------------------------------------------------

  /** The secrets with no skipped owner. */
  function Owned(secrets: seq<Secret>, skipped: set<Uuid>): nat -> bool {
    (i: nat) => i < |secrets| && !IsSkipped(secrets[i].ref, skipped)
  }

  /** Every auth profile, tunnel, proxy and connection is asked for once, in order; of
      the secrets, in order, exactly those with no skipped owner. */
  lemma {:induction false} EachOnce(actions: Actions, deps: Deps) returns (at: seq<nat>)
    ensures var events, secrets := Trace(actions, deps), actions.secretWrites;
            var skipped := Skipped(actions.connections, |actions.connections|, deps);
            && Pick(events, AUTH) == actions.authProfiles && Pick(events, SSH) == actions.sshTunnels
            && Pick(events, PROXY) == actions.proxies && Pick(events, CONNECTION) == actions.connections
            && Exactly(at, |secrets|, Owned(secrets, skipped)) && |Pick(events, SECRET)| == |at|
            && (forall k | 0 <= k < |at| :: at[k] < |secrets| && Pick(events, SECRET)[k] == secrets[at[k]])
  {
    hide Trace, Skipped, Pick, Attempted, Exactly, Owned;
    TraceKinds(actions, deps);
    var secrets := actions.secretWrites;
    at := AttemptedAt(secrets, Skipped(actions.connections, |actions.connections|, deps), |secrets|);
    assert secrets[..|secrets|] == secrets;
  }

  lemma {:induction false} AttemptedAt(secrets: seq<Secret>, skipped: set<Uuid>, n: nat) returns (at: seq<nat>)
    requires n <= |secrets|
    ensures Exactly(at, n, Owned(secrets, skipped)) && |Attempted(secrets[..n], skipped)| == |at|
    ensures forall k | 0 <= k < |at| :: at[k] < n && Attempted(secrets[..n], skipped)[k] == secrets[at[k]]
  {
    hide IsSkipped, Exactly;
    if n == 0 {
      at := [];
      ExactlyNone(Owned(secrets, skipped));
    } else {
      at := AttemptedAt(secrets, skipped, n - 1);
      ExactlyNext(at, n - 1, Owned(secrets, skipped));
      assert secrets[..n][..n - 1] == secrets[..n - 1];
      if !IsSkipped(secrets[n - 1].ref, skipped) { at := at + [n - 1]; }
    }
  }

  function Inserted(deps: Deps): nat -> bool {
    (i: nat) => deps.insert(i).Inserted?
  }

  function LacksDriver(deps: Deps): nat -> bool {
    (i: nat) => deps.insert(i).NeedsDriver?
  }

  function Refused(deps: Deps): nat -> bool {
    (i: nat) => deps.insert(i).ConfigFailed?
  }

  function Failing(deps: Deps): nat -> bool {
    (i: nat) => !deps.write(i)
  }

  lemma {:induction false} InsertedAt(connections: seq<Connection>, n: nat, deps: Deps) returns (at: seq<nat>)
    requires n <= |connections|
    ensures Exactly(at, n, Inserted(deps)) && |InsertedNames(connections, n, deps)| == |at|
    ensures forall k | 0 <= k < |at| :: at[k] < n && InsertedNames(connections, n, deps)[k] == connections[at[k]].name
  {
    hide Exactly;
    if n == 0 {
      at := [];
      ExactlyNone(Inserted(deps));
    } else {
      at := InsertedAt(connections, n - 1, deps);
      ExactlyNext(at, n - 1, Inserted(deps));
      if deps.insert(n - 1).Inserted? { at := at + [n - 1]; }
    }
  }

  lemma {:induction false} DriverMissingAt(connections: seq<Connection>, n: nat, deps: Deps) returns (at: seq<nat>)
    requires n <= |connections|
    ensures Exactly(at, n, LacksDriver(deps)) && |DriverMissing(connections, n, deps)| == |at|
    ensures forall k | 0 <= k < |at| ::
              at[k] < n && DriverMissing(connections, n, deps)[k] == (connections[at[k]].name, connections[at[k]].driverId)
  {
    hide Exactly;
    if n == 0 {
      at := [];
      ExactlyNone(LacksDriver(deps));
    } else {
      at := DriverMissingAt(connections, n - 1, deps);
      ExactlyNext(at, n - 1, LacksDriver(deps));
      if deps.insert(n - 1).NeedsDriver? { at := at + [n - 1]; }
    }
  }

  lemma {:induction false} RefusedAt(connections: seq<Connection>, n: nat, deps: Deps) returns (at: seq<nat>)
    requires n <= |connections|
    ensures Exactly(at, n, Refused(deps)) && |ConfigRefused(connections, n, deps)| == |at|
    ensures forall k | 0 <= k < |at| ::
              && at[k] < n && deps.insert(at[k]).ConfigFailed?
              && ConfigRefused(connections, n, deps)[k] == (connections[at[k]].name, deps.insert(at[k]).reason)
  {
    hide Exactly;
    if n == 0 {
      at := [];
      ExactlyNone(Refused(deps));
    } else {
      at := RefusedAt(connections, n - 1, deps);
      ExactlyNext(at, n - 1, Refused(deps));
      if deps.insert(n - 1).ConfigFailed? { at := at + [n - 1]; }
    }
  }

  /** The failures reported are, in order, those of exactly the writes that failed. */
  lemma {:induction false} FailedAt(attempted: seq<Secret>, n: nat, deps: Deps) returns (at: seq<nat>)
    requires n <= |attempted|
    ensures Exactly(at, n, Failing(deps)) && |FailedWrites(attempted, n, deps)| == |at|
    ensures forall k | 0 <= k < |at| :: at[k] < n && FailedWrites(attempted, n, deps)[k] == ("(secret)", attempted[at[k]].ref)
  {
    hide Exactly;
    if n == 0 {
      at := [];
      ExactlyNone(Failing(deps));
    } else {
      at := FailedAt(attempted, n - 1, deps);
      ExactlyNext(at, n - 1, Failing(deps));
      if !deps.write(n - 1) { at := at + [n - 1]; }
    }
  }

  /** What succeeded: the auth profiles, the tunnels, the proxies, and then, in order,
      exactly the connections that were inserted. */
  lemma {:induction false} SucceededList(actions: Actions, deps: Deps) returns (inserted: seq<nat>)
    ensures var cs, succeeded := actions.connections, Result(actions, deps).succeeded;
            var others := |actions.authProfiles| + |actions.sshTunnels| + |actions.proxies|;
            && Exactly(inserted, |cs|, Inserted(deps)) && |succeeded| == others + |inserted|
            && (forall k | 0 <= k < |actions.authProfiles| :: succeeded[k] == actions.authProfiles[k].name)
            && succeeded[|actions.authProfiles|..others] == actions.sshTunnels + actions.proxies
            && (forall k | 0 <= k < |inserted| :: inserted[k] < |cs| && succeeded[others + k] == cs[inserted[k]].name)
  {
    hide InsertedNames, DriverMissing, ConfigRefused, Exactly, FailedWrites, Attempted, Skipped, KindFailures;
    var cs := actions.connections;
    inserted := InsertedAt(cs, |cs|, deps);
    var a, b, c, d := AuthNames(actions.authProfiles), actions.sshTunnels, actions.proxies, InsertedNames(cs, |cs|, deps);
    FourLists(a, b, c, d);
  }

  lemma {:induction false} FourLists(a: seq<string>, b: seq<string>, c: seq<string>, d: seq<string>)
    ensures var all, n := a + b + c + d, |a| + |b| + |c|;
            && |all| == n + |d| && (forall k | 0 <= k < |a| :: all[k] == a[k]) && all[|a|..n] == b + c
            && forall k | 0 <= k < |d| :: all[n + k] == d[k]
  {
  }

  /** What failed: the connections whose driver is missing, with the driver; the kinds
      that could not be read and the connections that were refused, with the reason. */
  lemma {:induction false} FailureLists(actions: Actions, deps: Deps) returns (missing: seq<nat>, refused: seq<nat>)
    ensures var cs, out := actions.connections, Result(actions, deps);
            && Exactly(missing, |cs|, LacksDriver(deps)) && Exactly(refused, |cs|, Refused(deps))
            && |out.needsDriver| == |missing|
            && (forall k | 0 <= k < |missing| :: missing[k] < |cs| && out.needsDriver[k] == (cs[missing[k]].name, cs[missing[k]].driverId))
            && |out.configFailures| == |actions.kindFailures| + |refused|
            && (forall k | 0 <= k < |actions.kindFailures| :: out.configFailures[k].0 == actions.kindFailures[k].0)
            && (forall k | 0 <= k < |refused| ::
                  && refused[k] < |cs| && deps.insert(refused[k]).ConfigFailed?
                  && out.configFailures[|actions.kindFailures| + k] == (cs[refused[k]].name, deps.insert(refused[k]).reason))
            && out.unresolvedRefs == actions.unresolvedRefs
  {
    hide InsertedNames, DriverMissing, ConfigRefused, Exactly, FailedWrites, Attempted, Skipped, KindMessage,
         AuthNames;
    var cs := actions.connections;
    missing := DriverMissingAt(cs, |cs|, deps);
    refused := RefusedAt(cs, |cs|, deps);
  }

  /** And, in order, exactly the secrets whose write failed. */
  lemma {:induction false} SecretFailures(actions: Actions, deps: Deps) returns (failed: seq<nat>)
    ensures var written, failures := Pick(Trace(actions, deps), SECRET), Result(actions, deps).secretFailures;
            && Exactly(failed, |written|, Failing(deps)) && |failures| == |failed|
            && forall k | 0 <= k < |failed| :: failed[k] < |written| && failures[k] == ("(secret)", written[failed[k]].ref)
  {
    hide InsertedNames, DriverMissing, ConfigRefused, Exactly, FailedWrites, Attempted, Skipped, KindFailures,
         AuthNames, Trace, Pick;
    TraceKinds(actions, deps);
    var written := Pick(Trace(actions, deps), SECRET);
    failed := FailedAt(written, |written|, deps);
  }

  // ---------------------------------------------------------------------
  // Hydration
  // ---------------------------------------------------------------------

  /** A profile with secrets is hydrated right after it is added. */
  lemma {:induction false} HydratedNext(auths: seq<Auth>, fields: map<Uuid, map<string, string>>, i: nat)
    requires i < |AuthEvents(auths, fields)|
    ensures var events := AuthEvents(auths, fields);
            && (events[i].AddAuth? && events[i].auth.id in fields ==>
                  i + 1 < |events| && events[i + 1] == Hydrate(events[i].auth.id, fields[events[i].auth.id]))
            && (events[i].Hydrate? ==>
                  && i > 0 && events[i - 1].AddAuth? && events[i - 1].auth.id == events[i].id
                  && events[i].id in fields && events[i].fields == fields[events[i].id])
    decreases |auths|
  {
    var n := |auths| - 1;
    var before := AuthEvents(auths[..n], fields);
    if i < |before| { HydratedNext(auths[..n], fields, i); }
  }

  /** The reference of a secret names the profile before the first colon and the field
      behind it, which may hold more colons. */
  lemma {:induction false} AuthFieldReads(id: string, field: string, deps: Deps)
    requires ':' !in id
    ensures AuthField(AUTH_PREFIX + id + ":" + field, deps)
         == if deps.parseUuid(id).None? then None else Some((deps.parseUuid(id).value, field))
    ensures AuthField(AUTH_PREFIX + id, deps) == None
  {
    var ref, bare := AUTH_PREFIX + id + ":" + field, AUTH_PREFIX + id;
    assert ref[|AUTH_PREFIX|..] == id + ":" + field && bare[|AUTH_PREFIX|..] == id;
    IndexOfFirst(id, ':', field);
    var rest := id + ":" + field;
    assert rest[..|id|] == id && rest[|id| + 1..] == field;
  }
}
