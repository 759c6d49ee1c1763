/** The lookup from lower-cased section names to the names as the AWS files spell
    them. The names of each file come from a set, so in any order. */
module SectionNames {
  import opened Text

  /** The last of the names equal ignoring case wins. */
  function Canonical(names: seq<string>): map<string, string> {
    if names == [] then map[] else
      var last := names[|names| - 1];
      Canonical(names[..|names| - 1])[Lower(last) := last]
  }

  method BuildCanonical(configNames: seq<string>, credentialsNames: seq<string>) returns (canonical: map<string,
          string>)
    ensures canonical == Canonical(configNames + credentialsNames)
  {
    hide Lower;
    var names := configNames + credentialsNames;
    canonical := map[];
    var k := 0;
    while k < |names|
      invariant k <= |names| && canonical == Canonical(names[..k])
    {
      assert names[..k + 1][..k] == names[..k];
      canonical := canonical[Lower(names[k]) := names[k]];
      k := k + 1;
    }
    assert names[..k] == names;
  }

  lemma {:induction false} CanonicalHolds(names: seq<string>)
    ensures forall n | n in names :: Lower(n) in Canonical(names)
    ensures forall l | l in Canonical(names) :: Canonical(names)[l] in names && Lower(Canonical(names)[l]) == l
  {
    hide Lower;
    if names != [] {
      var init, last := names[..|names| - 1], names[|names| - 1];
      CanonicalHolds(init);
      assert names == init + [last];
      assert forall n :: n in names <==> n in init || n == last;
    }
  }

  lemma {:induction false} CanonicalSnoc(names: seq<string>, last: string)
    ensures Canonical(names + [last]) == Canonical(names)[Lower(last) := last]
  {
    hide Lower;
    assert (names + [last])[..|names|] == names;
  }

  lemma {:induction false} NoNames()
    ensures Canonical([]) == map[]
  {
  }

  lemma {:induction false} UpdateLater(m: map<string, string>, n: map<string, string>, key: string, value: string)
    ensures (m + n)[key := value] == m + n[key := value]
  {
  }

  /** Later names win. */
  lemma {:induction false} CanonicalConcat(a: seq<string>, b: seq<string>)
    ensures Canonical(a + b) == Canonical(a) + Canonical(b)
    decreases |b|
  {
    hide Lower, Canonical;
    if b == [] {
      assert a + b == a;
      assert Canonical(b) == map[] by { NoNames(); }
    } else {
      var n := |b| - 1;
      var init, last := b[..n], b[n];
      CanonicalConcat(a, init);
      assert a + b == a + init + [last] && b == init + [last];
      CanonicalSnoc(a + init, last);
      CanonicalSnoc(init, last);
      UpdateLater(Canonical(a), Canonical(init), Lower(last), last);
    }
  }

  lemma {:induction false} CanonicalLast(names: seq<string>, last: string)
    ensures Lower(last) in Canonical(names + [last]) && Canonical(names + [last])[Lower(last)] == last
  {
    hide Lower;
    assert (names + [last])[..|names|] == names;
  }

  // ---------------------------------------------------------------------
  // When the order does not matter
  // ---------------------------------------------------------------------

  predicate Distinct(names: seq<string>) {
    forall i, j | 0 <= i < j < |names| :: names[i] != names[j]
  }

  /** `a` lists the set that `b` lists. */
  ghost predicate Lists(a: seq<string>, b: seq<string>) {
    Distinct(a) && forall n :: n in a <==> n in b
  }

  ghost predicate CaseDistinct(names: seq<string>) {
    forall a, b | a in names && b in names :: Lower(a) == Lower(b) ==> a == b
  }

  predicate Spelled(names: seq<string>, l: string) {
    exists n | n in names :: Lower(n) == l
  }

  /** No two credentials names differ by case only, and where two config names do, a
      credentials name settles the spelling. */
  ghost predicate Settled(config: seq<string>, credentials: seq<string>) {
    && CaseDistinct(credentials)
    && forall a, b | a in config && b in config :: Lower(a) == Lower(b) && a != b ==> Spelled(credentials, Lower(a))
  }

  /** Whatever orders the two sets come in, the lookup is the same. */
  ghost predicate OrderFree(config: seq<string>, credentials: seq<string>) {
    forall c, k | Lists(c, config) && Lists(k, credentials) :: Canonical(c + k) == Canonical(config + credentials)
  }

  lemma {:induction false} SpelledIff(names: seq<string>, l: string)
    ensures Spelled(names, l) <==> l in Canonical(names)
  {
    hide Lower, Canonical;
    CanonicalHolds(names);
  }

  lemma {:induction false} SameLookup(a: seq<string>, b: seq<string>)
    requires CaseDistinct(b) && forall n :: n in a <==> n in b
    ensures Canonical(a) == Canonical(b)
  {
    hide Lower, Canonical;
    CanonicalHolds(a);
    CanonicalHolds(b);
    var x, y := Canonical(a), Canonical(b);
    forall l ensures l in x <==> l in y {
      if l in x { assert x[l] in b; }
      if l in y { assert y[l] in a; }
    }
  }

  lemma {:induction false} SettledAt(config: seq<string>, credentials: seq<string>, c: seq<string>, l: string)
    requires Settled(config, credentials) && Lists(c, config)
    ensures l in Canonical(c) <==> l in Canonical(config)
    ensures l in Canonical(c) && l !in Canonical(credentials) ==> Canonical(c)[l] == Canonical(config)[l]
  {
    hide Lower, Canonical, CaseDistinct, Distinct;
    CanonicalHolds(c);
    CanonicalHolds(config);
    SpelledIff(credentials, l);
    if l in Canonical(c) { assert Canonical(c)[l] in config; }
    if l in Canonical(config) { assert Canonical(config)[l] in c; }
  }

  lemma {:induction false} SettledIsFree(config: seq<string>, credentials: seq<string>, c: seq<string>,
          k: seq<string>)
    requires Settled(config, credentials) && Lists(c, config) && Lists(k, credentials)
    ensures Canonical(c + k) == Canonical(config + credentials)
  {
    hide Lower, Canonical, Distinct;
    CanonicalConcat(c, k);
    CanonicalConcat(config, credentials);
    SameLookup(k, credentials);
    var x, y, z := Canonical(c), Canonical(config), Canonical(credentials);
    forall l ensures l in x <==> l in y
             ensures l in x && l !in z ==> x[l] == y[l]
    {
      SettledAt(config, credentials, c, l);
    }
  }

  // ---------------------------------------------------------------------
  // And when it does
  // ---------------------------------------------------------------------

  function Without(names: seq<string>, n: string): seq<string> {
    if names == [] then [] else (if names[0] == n then [] else [names[0]]) + Without(names[1..], n)
  }

  lemma {:induction false} WithoutHolds(names: seq<string>, n: string)
    ensures forall x :: x in Without(names, n) <==> x in names && x != n
    ensures Distinct(names) ==> Distinct(Without(names, n))
  {
    if names != [] {
      WithoutHolds(names[1..], n);
      var rest := Without(names[1..], n);
      assert forall x :: x in names <==> x == names[0] || x in names[1..];
      assert [] + rest == rest;
      assert forall x :: x in [names[0]] + rest <==> x == names[0] || x in rest;
      if Distinct(names) {
        assert names[0] !in names[1..];
        assert Distinct(names[1..]);
        DistinctCons(names[0], rest);
      }
    }
  }

  lemma {:induction false} DistinctCons(x: string, rest: seq<string>)
    requires Distinct(rest) && x !in rest
    ensures Distinct([x] + rest)
  {
  }

  lemma {:induction false} DistinctSnoc(rest: seq<string>, x: string)
    requires Distinct(rest) && x !in rest
    ensures Distinct(rest + [x])
  {
  }

  /** An order of a set in which `a` is the last but one and `b` the last. */
  lemma {:induction false} Reordered(names: seq<string>, a: string, b: string) returns (order: seq<string>)
    requires Distinct(names) && a in names && b in names && a != b
    ensures Lists(order + [b], names)
  {
    var rest := Without(Without(names, a), b);
    WithoutHolds(names, a);
    WithoutHolds(Without(names, a), b);
    order := rest + [a];
    DistinctSnoc(rest, a);
    DistinctSnoc(order, b);
    assert forall x :: x in order + [b] <==> x in rest || x == a || x == b;
  }

  lemma {:induction false} FreeIsSettled(config: seq<string>, credentials: seq<string>)
    requires Distinct(config) && Distinct(credentials) && OrderFree(config, credentials)
    ensures Settled(config, credentials)
  {
    hide Lower, Canonical;
    assert Lists(config, config) && Lists(credentials, credentials);
    forall a, b | a in credentials && b in credentials && Lower(a) == Lower(b) ensures a == b {
      if a != b {
        var p := Reordered(credentials, a, b);
        var q := Reordered(credentials, b, a);
        WinsLast(config, p, b);
        WinsLast(config, q, a);
      }
    }
    forall a, b | a in config && b in config && Lower(a) == Lower(b) && a != b ensures Spelled(credentials, Lower(a)) {
      var p := Reordered(config, a, b);
      var q := Reordered(config, b, a);
      if !Spelled(credentials, Lower(a)) {
        WinsUnspelled(p, b, credentials);
        WinsUnspelled(q, a, credentials);
      }
    }
  }

  lemma {:induction false} WinsLast(config: seq<string>, order: seq<string>, last: string)
    ensures var c := Canonical(config + (order + [last]));
            Lower(last) in c && c[Lower(last)] == last
  {
    hide Lower, Canonical;
    CanonicalConcat(config, order + [last]);
    CanonicalLast(order, last);
  }

  lemma {:induction false} WinsUnspelled(order: seq<string>, last: string, credentials: seq<string>)
    requires !Spelled(credentials, Lower(last))
    ensures var c := Canonical(order + [last] + credentials);
            Lower(last) in c && c[Lower(last)] == last
  {
    hide Lower, Canonical, Spelled;
    SpelledIff(credentials, Lower(last));
    CanonicalConcat(order + [last], credentials);
    CanonicalLast(order, last);
  }

  /** The lookup does not depend on the orders of the two sets exactly if the
      credentials names differ by more than case, and every two config names that
      differ by case only are spelled in credentials too. */
  lemma {:induction false} OrderFreeIffSettled(config: seq<string>, credentials: seq<string>)
    requires Distinct(config) && Distinct(credentials)
    ensures OrderFree(config, credentials) <==> Settled(config, credentials)
  {
    hide Canonical, Lists, Distinct, Settled;
    if OrderFree(config, credentials) {
      FreeIsSettled(config, credentials);
    }
    if Settled(config, credentials) {
      forall c, k | Lists(c, config) && Lists(k, credentials) ensures Canonical(c + k) == Canonical(config + credentials) {
        SettledIsFree(config, credentials, c, k);
      }
    }
  }

  /** Two spellings in the config file, none in credentials: either can win. */
  lemma {:induction false} TwoSpellings()
    ensures Canonical(["Dev", "dev"] + []) != Canonical(["dev", "Dev"] + [])
    ensures Canonical(["Dev", "dev"] + ["dev"]) == Canonical(["dev", "Dev"] + ["dev"])
  {
    hide Lower, Canonical;
    assert Lower("Dev") == "dev" && Lower("dev") == "dev" by { LowerDev(); }
    assert ["Dev", "dev"] + [] == ["Dev"] + ["dev"] && ["dev", "Dev"] + [] == ["dev"] + ["Dev"];
    CanonicalLast(["Dev"], "dev");
    CanonicalLast(["dev"], "Dev");
    var x, y := ["Dev", "dev"], ["dev", "Dev"];
    CanonicalConcat(x, ["dev"]);
    CanonicalConcat(y, ["dev"]);
    CanonicalHolds(x);
    CanonicalHolds(y);
    CanonicalLast([], "dev");
    assert [] + ["dev"] == ["dev"];
    assert forall l :: l in Canonical(x) ==> l == "dev" by { OneSpelling(x); }
    assert forall l :: l in Canonical(y) ==> l == "dev" by { OneSpelling(y); }
  }

  lemma {:induction false} LowerDev()
    ensures Lower("Dev") == "dev" && Lower("dev") == "dev"
  {
  }

  lemma {:induction false} OneSpelling(names: seq<string>)
    requires forall n | n in names :: Lower(n) == "dev"
    ensures forall l | l in Canonical(names) :: l == "dev"
  {
    hide Lower, Canonical;
    CanonicalHolds(names);
  }
}
