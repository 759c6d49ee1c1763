/** Persisting the actions of an import: the order of the writes, what becomes of
    each connection, and which secrets are written. */
module ImportPersistence {
  import opened Text
  import opened Uuids

  datatype Auth = Auth(id: Uuid, name: string)

  datatype Connection = Connection(id: Uuid, name: string, driverId: string)

  datatype Secret = Secret(ref: string, value: string)

  datatype Actions = Actions(
    kindFailures: seq<(string, string)>, unresolvedRefs: seq<string>, secretWrites: seq<Secret>, authProfiles: seq<Auth>,
    sshTunnels: seq<string>, proxies: seq<string>, connections: seq<Connection>)

  datatype InsertResult = Inserted | NeedsDriver | ConfigFailed(reason: string)

  /** The foreign parts: how a registry takes each connection and a keyring each
      secret, in the order they are asked; and the parser of ids. */
  datatype Deps = Deps(insert: nat -> InsertResult, write: nat -> bool, parseUuid: string -> Option<Uuid>)

  datatype Outcome = Outcome(
    succeeded: seq<string>, secretFailures: seq<(string, string)>, needsDriver: seq<(string, string)>, configFailures: seq<(string, string)>,
    unresolvedRefs: seq<string>)

  datatype Event =
    | AddAuth(auth: Auth)
    | Hydrate(id: Uuid, fields: map<string, string>)
    | AddSsh(name: string)
    | AddProxy(name: string)
    | AddConnection(connection: Connection)
    | WriteSecret(secret: Secret)

  const CONNECTION_PREFIX: string := "dbflux:conn:"
  const AUTH_PREFIX: string := "dbflux:auth:"

  function ConnectionRef(id: Uuid): string {
    CONNECTION_PREFIX + UuidText(id)
  }

  // ---------------------------------------------------------------------
  // Secrets of auth profiles
  // ---------------------------------------------------------------------

  /** The profile and field a reference `dbflux:auth:<uuid>:<field>` names. */
  function AuthField(ref: string, deps: Deps): Option<(Uuid, string)> {
    if !(AUTH_PREFIX <= ref) then None else
      var stripped := ref[|AUTH_PREFIX|..];
      var i := IndexOf(stripped, ':');
      if i == |stripped| || deps.parseUuid(stripped[..i]).None? then None
      else Some((deps.parseUuid(stripped[..i]).value, stripped[i + 1..]))
  }

  /** The fields of each auth profile, the last write of a field winning. */
  function AuthFields(secrets: seq<Secret>, deps: Deps): map<Uuid, map<string, string>> {
    if secrets == [] then map[] else
      var before := AuthFields(secrets[..|secrets| - 1], deps);
      var last := secrets[|secrets| - 1];
      match AuthField(last.ref, deps)
      case None => before
      case Some((id, field)) => before[id := (if id in before then before[id] else map[])[field := last.value]]
  }

  // ---------------------------------------------------------------------
  // The trace
  // ---------------------------------------------------------------------

  function AuthEvents(auths: seq<Auth>, fields: map<Uuid, map<string, string>>): seq<Event> {
    if auths == [] then [] else
      var last := auths[|auths| - 1];
      AuthEvents(auths[..|auths| - 1], fields)
      + ([AddAuth(last)] + if last.id in fields then [Hydrate(last.id, fields[last.id])] else [])
  }

  function SshEvents(names: seq<string>): seq<Event> {
    seq(|names|, i requires 0 <= i < |names| => AddSsh(names[i]))
  }

  function ProxyEvents(names: seq<string>): seq<Event> {
    seq(|names|, i requires 0 <= i < |names| => AddProxy(names[i]))
  }

  function ConnectionEvents(connections: seq<Connection>): seq<Event> {
    seq(|connections|, i requires 0 <= i < |connections| => AddConnection(connections[i]))
  }

  /** The connections among the first `n` that were not inserted. */
  function Skipped(connections: seq<Connection>, n: nat, deps: Deps): set<Uuid>
    requires n <= |connections|
  {
    set i | 0 <= i < n && !deps.insert(i).Inserted? :: connections[i].id
  }

  predicate IsSkipped(ref: string, skipped: set<Uuid>) {
    exists id | id in skipped :: ConnectionRef(id) <= ref
  }

  /** The secrets that are written, in order. */
  function Attempted(secrets: seq<Secret>, skipped: set<Uuid>): seq<Secret> {
    if secrets == [] then [] else
      var last := secrets[|secrets| - 1];
      Attempted(secrets[..|secrets| - 1], skipped) + if IsSkipped(last.ref, skipped) then [] else [last]
  }

  function SecretEvents(secrets: seq<Secret>): seq<Event> {
    seq(|secrets|, i requires 0 <= i < |secrets| => WriteSecret(secrets[i]))
  }

  /** Every call an import makes, in order. */
  function Trace(actions: Actions, deps: Deps): seq<Event> {
    AuthEvents(actions.authProfiles, AuthFields(actions.secretWrites, deps))
    + SshEvents(actions.sshTunnels) + ProxyEvents(actions.proxies) + ConnectionEvents(actions.connections)
    + SecretEvents(Attempted(actions.secretWrites, Skipped(actions.connections, |actions.connections|, deps)))
  }

  // ---------------------------------------------------------------------
  // The outcome
  // ---------------------------------------------------------------------

  function AuthNames(auths: seq<Auth>): seq<string> {
    seq(|auths|, i requires 0 <= i < |auths| => auths[i].name)
  }

  function InsertedNames(connections: seq<Connection>, n: nat, deps: Deps): seq<string>
    requires n <= |connections|
  {
    if n == 0 then [] else
      InsertedNames(connections, n - 1, deps) + if deps.insert(n - 1).Inserted? then [connections[n - 1].name] else []
  }

  function DriverMissing(connections: seq<Connection>, n: nat, deps: Deps): seq<(string, string)>
    requires n <= |connections|
  {
    if n == 0 then [] else
      DriverMissing(connections, n - 1, deps)
      + if deps.insert(n - 1).NeedsDriver? then [(connections[n - 1].name, connections[n - 1].driverId)] else []
  }

  function ConfigRefused(connections: seq<Connection>, n: nat, deps: Deps): seq<(string, string)>
    requires n <= |connections|
  {
    if n == 0 then [] else
      ConfigRefused(connections, n - 1, deps)
      + if deps.insert(n - 1).ConfigFailed? then [(connections[n - 1].name, deps.insert(n - 1).reason)] else []
  }

  function KindMessage(driverId: string): string {
    "missing or unparseable `kind` field (driver: " + driverId + ")"
  }

  function KindFailures(failures: seq<(string, string)>): seq<(string, string)> {
    seq(|failures|, i requires 0 <= i < |failures| => (failures[i].0, KindMessage(failures[i].1)))
  }

  /** The failures among the first `n` attempted writes. */
  function FailedWrites(attempted: seq<Secret>, n: nat, deps: Deps): seq<(string, string)>
    requires n <= |attempted|
  {
    if n == 0 then [] else FailedWrites(attempted, n - 1, deps) + if deps.write(n - 1) then [] else [("(secret)", attempted[n - 1].ref)]
  }

  function Result(actions: Actions, deps: Deps): Outcome {
    var n := |actions.connections|;
    var attempted := Attempted(actions.secretWrites, Skipped(actions.connections, n, deps));
    Outcome(
      AuthNames(actions.authProfiles) + actions.sshTunnels + actions.proxies + InsertedNames(actions.connections, n, deps),
      FailedWrites(attempted, |attempted|, deps),
      DriverMissing(actions.connections, n, deps),
      KindFailures(actions.kindFailures) + ConfigRefused(actions.connections, n, deps),
      actions.unresolvedRefs)
  }

  // ---------------------------------------------------------------------
  // The procedure
  // ---------------------------------------------------------------------

  /** The seam: it records the calls made through it and answers them. */
  class Seam {
    var trace: seq<Event>

    constructor ()
      ensures trace == []
    {
      trace := [];
    }

    method Call(event: Event)
      modifies this
      ensures trace == old(trace) + [event]
    {
      trace := trace + [event];
    }
  }

  method CollectAuthFields(secrets: seq<Secret>, deps: Deps) returns (fields: map<Uuid, map<string, string>>)
    ensures fields == AuthFields(secrets, deps)
  {
    hide AuthField;
    fields := map[];
    var k := 0;
    while k < |secrets|
      invariant k <= |secrets| && fields == AuthFields(secrets[..k], deps)
    {
      assert secrets[..k + 1][..k] == secrets[..k];
      match AuthField(secrets[k].ref, deps) {
        case None =>
        case Some((id, field)) =>
          fields := fields[id := (if id in fields then fields[id] else map[])[field := secrets[k].value]];
      }
      k := k + 1;
    }
    assert secrets[..k] == secrets;
  }

  method PersistAuths(auths: seq<Auth>, fields: map<Uuid, map<string, string>>,
          seam: Seam) returns (names: seq<string>)
    modifies seam
    ensures seam.trace == old(seam.trace) + AuthEvents(auths, fields)
    ensures names == AuthNames(auths)
  {
    names := [];
    var k := 0;
    assert auths[..0] == [] && seam.trace == seam.trace + [];
    while k < |auths|
      invariant k <= |auths|
      invariant names == AuthNames(auths[..k])
      invariant seam.trace == old(seam.trace) + AuthEvents(auths[..k], fields)
    {
      var auth := auths[k];
      assert auths[..k + 1][..k] == auths[..k];
      ghost var before := AuthEvents(auths[..k], fields);
      ghost var more := [AddAuth(auth)] + if auth.id in fields then [Hydrate(auth.id, fields[auth.id])] else [];
      ConcatAssoc(old(seam.trace), before, more);
      seam.Call(AddAuth(auth));
      names := names + [auth.name];
      if auth.id in fields {
        seam.Call(Hydrate(auth.id, fields[auth.id]));
      }
      assert seam.trace == (old(seam.trace) + before) + more;
      k := k + 1;
    }
    assert auths[..k] == auths;
  }

  method PersistSsh(names: seq<string>, seam: Seam)
    modifies seam
    ensures seam.trace == old(seam.trace) + SshEvents(names)
  {
    var k := 0;
    while k < |names|
      invariant k <= |names| && seam.trace == old(seam.trace) + SshEvents(names[..k])
    {
      assert SshEvents(names[..k + 1]) == SshEvents(names[..k]) + [AddSsh(names[k])];
      seam.Call(AddSsh(names[k]));
      k := k + 1;
    }
    assert names[..k] == names;
  }

  method PersistProxies(names: seq<string>, seam: Seam)
    modifies seam
    ensures seam.trace == old(seam.trace) + ProxyEvents(names)
  {
    var k := 0;
    while k < |names|
      invariant k <= |names| && seam.trace == old(seam.trace) + ProxyEvents(names[..k])
    {
      assert ProxyEvents(names[..k + 1]) == ProxyEvents(names[..k]) + [AddProxy(names[k])];
      seam.Call(AddProxy(names[k]));
      k := k + 1;
    }
    assert names[..k] == names;
  }

  lemma {:induction false} SkippedNext(connections: seq<Connection>, k: nat, deps: Deps)
    requires k < |connections|
    ensures Skipped(connections, k + 1, deps) == Skipped(connections, k, deps) + if deps.insert(k).Inserted? then {} else {connections[k].id}
  {
    var a, b := Skipped(connections, k + 1, deps), Skipped(connections, k, deps) + if deps.insert(k).Inserted? then {} else {connections[k].id};
    forall x | x in a ensures x in b {
      var i :| 0 <= i < k + 1 && !deps.insert(i).Inserted? && connections[i].id == x;
    }
  }

  method PersistConnections(connections: seq<Connection>, deps: Deps, seam: Seam)
    returns (succeeded: seq<string>, needsDriver: seq<(string, string)>, failed: seq<(string, string)>,
          skipped: set<Uuid>)
    modifies seam
    ensures seam.trace == old(seam.trace) + ConnectionEvents(connections)
    ensures succeeded == InsertedNames(connections, |connections|, deps)
    ensures needsDriver == DriverMissing(connections, |connections|, deps)
    ensures failed == ConfigRefused(connections, |connections|, deps)
    ensures skipped == Skipped(connections, |connections|, deps)
  {
    hide Skipped;
    succeeded, needsDriver, failed, skipped := [], [], [], {};
    NothingSkipped(connections, deps);
    var k := 0;
    while k < |connections|
      invariant k <= |connections| && seam.trace == old(seam.trace) + ConnectionEvents(connections[..k])
      invariant succeeded == InsertedNames(connections, k, deps)
      invariant needsDriver == DriverMissing(connections, k, deps)
      invariant failed == ConfigRefused(connections, k, deps)
      invariant skipped == Skipped(connections, k, deps)
    {
      var connection := connections[k];
      assert ConnectionEvents(connections[..k + 1]) == ConnectionEvents(connections[..k]) + [AddConnection(connection)];
      SkippedNext(connections, k, deps);
      seam.Call(AddConnection(connection));
      match deps.insert(k) {
        case Inserted =>
          succeeded := succeeded + [connection.name];
        case NeedsDriver =>
          needsDriver := needsDriver + [(connection.name, connection.driverId)];
          skipped := skipped + {connection.id};
        case ConfigFailed(reason) =>
          failed := failed + [(connection.name, reason)];
          skipped := skipped + {connection.id};
      }
      k := k + 1;
    }
    assert connections[..k] == connections;
  }

  lemma {:induction false} NothingSkipped(connections: seq<Connection>, deps: Deps)
    ensures Skipped(connections, 0, deps) == {}
  {
  }

  method PersistSecrets(secrets: seq<Secret>, skipped: set<Uuid>, deps: Deps,
          seam: Seam) returns (failures: seq<(string, string)>)
    modifies seam
    ensures var attempted := Attempted(secrets, skipped);
            seam.trace == old(seam.trace) + SecretEvents(attempted) && failures == FailedWrites(attempted, |attempted|, deps)
  {
    hide IsSkipped;
    failures := [];
    var asked := 0;
    ghost var attempted: seq<Secret> := [];
    var k := 0;
    assert secrets[..0] == [];
    while k < |secrets|
      invariant k <= |secrets| && attempted == Attempted(secrets[..k], skipped) && asked == |attempted|
      invariant seam.trace == old(seam.trace) + SecretEvents(attempted)
      invariant failures == FailedWrites(attempted, asked, deps)
    {
      var secret := secrets[k];
      assert secrets[..k + 1][..k] == secrets[..k];
      assert attempted + [] == attempted;
      k := k + 1;
      if IsSkipped(secret.ref, skipped) {
        continue;
      }
      FailedWritesMore(attempted, secret, deps);
      assert SecretEvents(attempted + [secret]) == SecretEvents(attempted) + [WriteSecret(secret)];
      seam.Call(WriteSecret(secret));
      attempted := attempted + [secret];
      if !deps.write(asked) {
        failures := failures + [("(secret)", secret.ref)];
      }
      asked := asked + 1;
    }
    assert secrets[..k] == secrets;
  }

  lemma {:induction false} FailedWritesPrefix(a: seq<Secret>, b: seq<Secret>, n: nat, deps: Deps)
    requires n <= |a|
    ensures FailedWrites(a + b, n, deps) == FailedWrites(a, n, deps)
  {
    if n > 0 { FailedWritesPrefix(a, b, n - 1, deps); }
  }

  lemma {:induction false} FailedWritesMore(attempted: seq<Secret>, secret: Secret, deps: Deps)
    ensures FailedWrites(attempted + [secret], |attempted| + 1, deps)
         == FailedWrites(attempted, |attempted|, deps) + if deps.write(|attempted|) then [] else [("(secret)", secret.ref)]
  {
    FailedWritesPrefix(attempted, [secret], |attempted|, deps);
  }

  method KindFailureList(failures: seq<(string, string)>) returns (list: seq<(string, string)>)
    ensures list == KindFailures(failures)
  {
    list := [];
    var k := 0;
    while k < |failures|
      invariant k <= |failures| && list == KindFailures(failures[..k])
    {
      list := list + [(failures[k].0, KindMessage(failures[k].1))];
      k := k + 1;
    }
    assert failures[..k] == failures;
  }

  /** `persist_import_actions`. */
  method PersistImportActions(actions: Actions, deps: Deps, seam: Seam) returns (outcome: Outcome)
    modifies seam
    ensures seam.trace == old(seam.trace) + Trace(actions, deps)
    ensures outcome == Result(actions, deps)
  {
    hide AuthFields, AuthEvents, Skipped, Attempted, FailedWrites, InsertedNames, DriverMissing, ConfigRefused,
         SshEvents, ProxyEvents, ConnectionEvents, SecretEvents, KindFailures, AuthNames;
    var configFailures := KindFailureList(actions.kindFailures);
    var fields := CollectAuthFields(actions.secretWrites, deps);
    var names := PersistAuths(actions.authProfiles, fields, seam);
    PersistSsh(actions.sshTunnels, seam);
    names := names + actions.sshTunnels;
    PersistProxies(actions.proxies, seam);
    names := names + actions.proxies;
    var inserted, needsDriver, failed, skipped := PersistConnections(actions.connections, deps, seam);
    names := names + inserted;
    var secretFailures := PersistSecrets(actions.secretWrites, skipped, deps, seam);
    ghost var a, b, c, d, e := AuthEvents(actions.authProfiles, fields), SshEvents(actions.sshTunnels),
      ProxyEvents(actions.proxies), ConnectionEvents(actions.connections), SecretEvents(Attempted(actions.secretWrites, skipped));
    Regroup(old(seam.trace), a, b, c, d, e);
    outcome := Outcome(names, secretFailures, needsDriver, configFailures + failed, actions.unresolvedRefs);
  }

  lemma {:induction false} Regroup<T>(s: seq<T>, a: seq<T>, b: seq<T>, c: seq<T>, d: seq<T>, e: seq<T>)
    ensures s + a + b + c + d + e == s + (a + b + c + d + e)
  {
  }

  // ---------------------------------------------------------------------
  // Properties
  // ---------------------------------------------------------------------

  /** Profiles before connections, connections before secrets. */
  function Stage(e: Event): nat {
    match e
    case AddAuth(_) => 0
    case Hydrate(_, _) => 0
    case AddSsh(_) => 1
    case AddProxy(_) => 2
    case AddConnection(_) => 3
    case WriteSecret(_) => 4
  }

  ghost predicate AllAt(events: seq<Event>, stage: nat) {
    forall i | 0 <= i < |events| :: Stage(events[i]) == stage
  }

  lemma {:induction false} AuthStage(auths: seq<Auth>, fields: map<Uuid, map<string, string>>)
    ensures AllAt(AuthEvents(auths, fields), 0)
  {
    if auths != [] { AuthStage(auths[..|auths| - 1], fields); }
  }

  lemma {:induction false} WritesAreOrdered(actions: Actions, deps: Deps, i: nat, j: nat)
    requires i < j < |Trace(actions, deps)|
    ensures Stage(Trace(actions, deps)[i]) <= Stage(Trace(actions, deps)[j])
  {
    hide AuthEvents, AuthFields, Attempted, Skipped;
    var a := AuthEvents(actions.authProfiles, AuthFields(actions.secretWrites, deps));
    var b, c, d := SshEvents(actions.sshTunnels), ProxyEvents(actions.proxies), ConnectionEvents(actions.connections);
    var e := SecretEvents(Attempted(actions.secretWrites, Skipped(actions.connections, |actions.connections|, deps)));
    AuthStage(actions.authProfiles, AuthFields(actions.secretWrites, deps));
    StagesInOrder(a, b, c, d, e, i, j);
  }

  lemma {:induction false} StagesInOrder(a: seq<Event>, b: seq<Event>, c: seq<Event>, d: seq<Event>, e: seq<Event>,
          i: nat, j: nat)
    requires AllAt(a, 0) && AllAt(b, 1) && AllAt(c, 2) && AllAt(d, 3) && AllAt(e, 4)
    requires i < j < |a + b + c + d + e|
    ensures Stage((a + b + c + d + e)[i]) <= Stage((a + b + c + d + e)[j])
  {
    hide Stage;
    StageAt(a, b, c, d, e, i);
    StageAt(a, b, c, d, e, j);
  }

  lemma {:induction false} StageAt(a: seq<Event>, b: seq<Event>, c: seq<Event>, d: seq<Event>, e: seq<Event>, i: nat)
    requires AllAt(a, 0) && AllAt(b, 1) && AllAt(c, 2) && AllAt(d, 3) && AllAt(e, 4)
    requires i < |a + b + c + d + e|
    ensures var p := |a|;
            var q := p + |b|;
            var r := q + |c|;
            var s := r + |d|;
            Stage((a + b + c + d + e)[i]) == if i < p then 0 else if i < q then 1 else if i < r then 2 else if i < s then 3 else 4
  {
    hide Stage;
    var p, q, r, s := |a|, |a + b|, |a + b + c|, |a + b + c + d|;
    var x := (a + b + c + d + e)[i];
    if i < p { assert x == a[i]; }
    else if i < q { assert x == b[i - p]; }
    else if i < r { assert x == c[i - q]; }
    else if i < s { assert x == d[i - r]; }
    else { assert x == e[i - s]; }
  }

  function Firsts(pairs: seq<(string, string)>): seq<string> {
    seq(|pairs|, i requires 0 <= i < |pairs| => pairs[i].0)
  }

  function Names(connections: seq<Connection>): seq<string> {
    seq(|connections|, i requires 0 <= i < |connections| => connections[i].name)
  }

  /** Each connection is in exactly one of the three lists, as often as it is given. */
  lemma {:induction false} ConnectionsPartitioned(connections: seq<Connection>, n: nat, deps: Deps)
    requires n <= |connections|
    ensures multiset(Names(connections[..n])) ==
            multiset(InsertedNames(connections, n, deps)) + multiset(Firsts(DriverMissing(connections, n, deps)))
            + multiset(Firsts(ConfigRefused(connections, n, deps)))
  {
    hide Names, Firsts, InsertedNames, DriverMissing, ConfigRefused;
    if n == 0 {
      NothingListed(connections, deps);
    } else {
      ConnectionsPartitioned(connections, n - 1, deps);
      ListedNext(connections, n, deps);
    }
  }

  lemma {:induction false} NothingListed(connections: seq<Connection>, deps: Deps)
    ensures Names(connections[..0]) == [] && InsertedNames(connections, 0, deps) == []
    ensures Firsts(DriverMissing(connections, 0, deps)) == [] && Firsts(ConfigRefused(connections, 0, deps)) == []
  {
  }

  /** The next name goes to one of the lists. */
  lemma {:induction false} ListedNext(connections: seq<Connection>, n: nat, deps: Deps)
    requires 0 < n <= |connections|
    ensures var x := [connections[n - 1].name];
            && Names(connections[..n]) == Names(connections[..n - 1]) + x
            && InsertedNames(connections, n, deps) == InsertedNames(connections, n - 1, deps) + (if deps.insert(n - 1).Inserted? then x else [])
            && Firsts(DriverMissing(connections, n, deps))
               == Firsts(DriverMissing(connections, n - 1, deps)) + (if deps.insert(n - 1).NeedsDriver? then x else [])
            && Firsts(ConfigRefused(connections, n, deps))
               == Firsts(ConfigRefused(connections, n - 1, deps)) + (if deps.insert(n - 1).ConfigFailed? then x else [])
  {
    hide Firsts;
    var c := connections[n - 1];
    var d, f := DriverMissing(connections, n - 1, deps), ConfigRefused(connections, n - 1, deps);
    assert d + [] == d && f + [] == f;
    assert Firsts(d) + [] == Firsts(d) && Firsts(f) + [] == Firsts(f);
    FirstsSnoc(d, (c.name, c.driverId));
    if deps.insert(n - 1).ConfigFailed? {
      FirstsSnoc(f, (c.name, deps.insert(n - 1).reason));
    }
  }

  lemma {:induction false} FirstsSnoc(pairs: seq<(string, string)>, p: (string, string))
    ensures Firsts(pairs + [p]) == Firsts(pairs) + [p.0]
  {
  }

  lemma {:induction false} AttemptedAre(secrets: seq<Secret>, skipped: set<Uuid>)
    ensures forall s :: s in Attempted(secrets, skipped) <==> s in secrets && !IsSkipped(s.ref, skipped)
  {
    hide IsSkipped;
    if secrets != [] {
      var n := |secrets| - 1;
      AttemptedAre(secrets[..n], skipped);
      assert secrets == secrets[..n] + [secrets[n]];
    }
  }

  /** A reference starts with that of one connection only. */
  lemma {:induction false} OwnerIsUnique(owner: Uuid, suffix: string, id: Uuid)
    ensures ConnectionRef(id) <= ConnectionRef(owner) + suffix <==> id == owner
  {
    hide UuidText;
    var a, b := ConnectionRef(id), ConnectionRef(owner);
    var n := |CONNECTION_PREFIX|;
    assert a[n..] == UuidText(id) && b[n..] == UuidText(owner);
    assert |a| == |b|;
    assert (b + suffix)[..|b|] == b;
    if a <= b + suffix {
      TextIsInjective(id, owner);
    }
  }

  /** A secret of a connection is written exactly if every connection with that id
      was inserted. */
  lemma {:induction false} SecretsFollowConnections(actions: Actions, deps: Deps, owner: Uuid, secret: Secret,
          suffix: string)
    requires secret in actions.secretWrites && secret.ref == ConnectionRef(owner) + suffix
    ensures var cs := actions.connections;
            WriteSecret(secret) in Trace(actions, deps) <==> forall i | 0 <= i < |cs| && cs[i].id == owner :: deps.insert(i).Inserted?
  {
    hide ConnectionRef, AuthEvents, AuthFields;
    var cs := actions.connections;
    var skipped := Skipped(cs, |cs|, deps);
    AttemptedAre(actions.secretWrites, skipped);
    forall id ensures ConnectionRef(id) <= secret.ref <==> id == owner { OwnerIsUnique(owner, suffix, id); }
    assert IsSkipped(secret.ref, skipped) <==> owner in skipped;
    SecretInTrace(actions, deps, secret);
  }

  lemma {:induction false} SecretInTrace(actions: Actions, deps: Deps, secret: Secret)
    ensures WriteSecret(secret) in Trace(actions, deps)
        <==> secret in Attempted(actions.secretWrites, Skipped(actions.connections, |actions.connections|, deps))
  {
    hide AuthEvents, AuthFields, Attempted, Skipped;
    var attempted := Attempted(actions.secretWrites, Skipped(actions.connections, |actions.connections|, deps));
    AuthStage(actions.authProfiles, AuthFields(actions.secretWrites, deps));
    var a := AuthEvents(actions.authProfiles, AuthFields(actions.secretWrites, deps));
    assert WriteSecret(secret) !in a;
    var e := SecretEvents(attempted);
    if secret in attempted {
      var k :| 0 <= k < |attempted| && attempted[k] == secret;
      assert e[k] == WriteSecret(secret);
    }
  }

  /** A secret of anything else is always written. */
  lemma {:induction false} OtherSecretsAreWritten(actions: Actions, deps: Deps, secret: Secret)
    requires secret in actions.secretWrites && !(CONNECTION_PREFIX <= secret.ref)
    ensures WriteSecret(secret) in Trace(actions, deps)
  {
    hide AuthEvents, AuthFields, Attempted, Skipped;
    var skipped := Skipped(actions.connections, |actions.connections|, deps);
    AttemptedAre(actions.secretWrites, skipped);
    forall id | id in skipped ensures !(ConnectionRef(id) <= secret.ref) {
      PrefixOfRef(id, secret.ref);
    }
    SecretInTrace(actions, deps, secret);
  }

  lemma {:induction false} PrefixOfRef(id: Uuid, ref: string)
    ensures ConnectionRef(id) <= ref ==> CONNECTION_PREFIX <= ref
  {
    var n := |CONNECTION_PREFIX|;
    if ConnectionRef(id) <= ref {
      assert ref[..n] == ConnectionRef(id)[..n];
    }
  }

  /** Every write that fails is reported, and nothing else is. */
  lemma {:induction false} FailuresAreReported(attempted: seq<Secret>, n: nat, deps: Deps)
    requires n <= |attempted|
    ensures forall p :: p in FailedWrites(attempted, n, deps) <==>
              exists k | 0 <= k < n :: !deps.write(k) && p == ("(secret)", attempted[k].ref)
  {
    if n > 0 {
      FailuresAreReported(attempted, n - 1, deps);
      var more := if deps.write(n - 1) then [] else [("(secret)", attempted[n - 1].ref)];
      assert forall p :: p in FailedWrites(attempted, n - 1, deps) + more <==> p in FailedWrites(attempted, n - 1, deps) || p in more;
    }
  }

  /** The fields an auth profile is hydrated with are those of its secrets, each with
      the last secret given for it. */
  lemma {:induction false} HydratedFields(secrets: seq<Secret>, deps: Deps, id: Uuid, field: string)
    ensures var fields := AuthFields(secrets, deps);
            var last := LastSecret(secrets, deps, id, field);
            && (last < |secrets| <==> id in fields && field in fields[id])
            && (last < |secrets| ==> fields[id][field] == secrets[last].value)
    decreases |secrets|
  {
    hide AuthField;
    if secrets != [] { HydratedFields(secrets[..|secrets| - 1], deps, id, field); }
  }

  /** The last secret for a field of a profile, or the number of secrets. */
  ghost function LastSecret(secrets: seq<Secret>, deps: Deps, id: Uuid, field: string): (k: nat)
    ensures k <= |secrets|
  {
    if secrets == [] then 0 else
      var n := |secrets| - 1;
      if AuthField(secrets[n].ref, deps) == Some((id, field)) then n else
        var k := LastSecret(secrets[..n], deps, id, field);
        if k == n then |secrets| else k
  }
}
