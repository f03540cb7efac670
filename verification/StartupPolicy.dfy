/** What the startup check promises of every packet it accepts, and the scan of the
    raw packet that runs before a map can hide a repeated key
    (frontdoor/params.go:60-86, 128-180, 422-466). */
module StartupPolicy {
  import opened Optional
  import opened StartupOptions
  import opened StartupParams
  import opened WireText

  // ---- accepted packets ----

  predicate Mentions(gs: seq<Setting>, n: string, i: nat) { i < |gs| && gs[i].name == n && Collectable(gs[i]) }

  lemma {:induction false} OptionIn(gs: seq<Setting>, n: string, i: nat)
    requires OptionsDistinct(gs) && Mentions(gs, n, i)
    ensures n in OptionSettings(gs) && OptionSettings(gs)[n] == gs[i].value
    decreases |gs|
  {
    var m := |gs| - 1;
    if i < m {
      assert Fold(gs[i].name) != Fold(gs[m].name);
      OptionIn(gs[..m], n, i);
    }
  }

  lemma {:induction false} OptionFrom(gs: seq<Setting>, n: string) returns (i: nat)
    requires n in OptionSettings(gs)
    ensures Mentions(gs, n, i)
    decreases |gs|
  {
    var m := |gs| - 1;
    if Mentions(gs, n, m) {
      i := m;
    } else {
      i := OptionFrom(gs[..m], n);
    }
  }

  predicate Maps(m: Params, n: string, v: string) { n in m && m[n] == v }

  ghost predicate OptionGives(gs: seq<Setting>, n: string, v: string) {
    exists i: nat :: Mentions(gs, n, i) && gs[i].value == v
  }

  lemma OptionSettingsExact(gs: seq<Setting>, n: string, v: string)
    requires OptionsDistinct(gs)
    ensures Maps(OptionSettings(gs), n, v) <==> OptionGives(gs, n, v)
  {
    if i: nat :| Mentions(gs, n, i) && gs[i].value == v {
      OptionIn(gs, n, i);
    }
    if Maps(OptionSettings(gs), n, v) {
      var i := OptionFrom(gs, n);
      OptionIn(gs, n, i);
    }
  }

  predicate TopGives(ps: Params, n: string, v: string) { Maps(ps, n, v) && SpecialName(n) == Plain }

  lemma MergedExactly(ps: Params, gs: seq<Setting>, n: string, v: string)
    requires OptionsApart(ps, gs)
    ensures Maps(TopSettings(ps) + OptionSettings(gs), n, v) <==>
            Maps(TopSettings(ps), n, v) || Maps(OptionSettings(gs), n, v)
  {
    if n in OptionSettings(gs) {
      NotBoth(ps, gs, n);
    }
  }

  lemma NotBoth(ps: Params, gs: seq<Setting>, n: string)
    requires OptionsApart(ps, gs) && n in OptionSettings(gs)
    ensures n !in ps
  {
    var i := OptionFrom(gs, n);
    assert Fold(gs[i].name) == Fold(n);
  }

  lemma NeverCarvedOut(ps: Params, gs: seq<Setting>, n: string, v: string)
    requires TopGives(ps, n, v) || OptionGives(gs, n, v)
    ensures !CarvedOut(n)
  {
    NotCarvedOut(n);
  }

  /** The settings of an accepted packet are exactly the collectable names, from
      the top level and from options, each with its own value byte for byte; no
      spelling of application_name or client_encoding is among them, and there
      are at most 64. */
  lemma AcceptedSettings(ps: Params, n: string, v: string)
    requires Accepts(ps)
    ensures Maps(Collected(ps), n, v) <==> TopGives(ps, n, v) || OptionGives(OptionsOf(ps), n, v)
    ensures Maps(Collected(ps), n, v) ==> !CarvedOut(n)
    ensures |Collected(ps)| <= 64
  {
    var gs := OptionsOf(ps);
    MergedExactly(ps, gs, n, v);
    OptionSettingsExact(gs, n, v);
    if TopGives(ps, n, v) || OptionGives(gs, n, v) {
      NeverCarvedOut(ps, gs, n, v);
    }
  }

  /** Every name an accepted packet gives, wherever it gives it. */
  function AllNames(ps: Params, keys: seq<string>): seq<string> {
    keys + NamesOf(OptionsOf(ps))
  }

  function NamesOf(gs: seq<Setting>): (r: seq<string>)
    ensures |r| == |gs| && forall i :: 0 <= i < |gs| ==> r[i] == gs[i].name
  {
    seq(|gs|, i requires 0 <= i < |gs| => gs[i].name)
  }

  predicate Enumerates(ps: Params, keys: seq<string>) {
    && (forall i :: 0 <= i < |keys| ==> keys[i] in ps)
    && (forall i, j :: 0 <= i < j < |keys| ==> keys[i] != keys[j])
  }

  /** No two of the packet's names are one name in two spellings. */
  ghost predicate AllApart(ps: Params, keys: seq<string>) {
    forall i, j :: 0 <= i < j < |AllNames(ps, keys)| ==> !SameName(AllNames(ps, keys)[i], AllNames(ps, keys)[j])
  }

  lemma ApartByFold(ps: Params, keys: seq<string>, i: nat, j: nat)
    requires Distinct(ps) && OptionsFit(ps, OptionsOf(ps)) && Enumerates(ps, keys) && i < j < |AllNames(ps, keys)|
    ensures Fold(AllNames(ps, keys)[i]) != Fold(AllNames(ps, keys)[j])
  {
    var gs := OptionsOf(ps);
    if j < |keys| {
      assert keys[i] in ps && keys[j] in ps && keys[i] != keys[j];
    } else if i < |keys| {
      assert Fold(gs[j - |keys|].name) != Fold(keys[i]);
    } else {
      assert Fold(gs[i - |keys|].name) != Fold(gs[j - |keys|].name);
    }
  }

  /** All names of an accepted packet, top level and options together, are different
      names however they are spelled. */
  lemma AcceptedNamesDistinct(ps: Params, keys: seq<string>)
    requires Accepts(ps) && Enumerates(ps, keys)
    ensures AllApart(ps, keys)
  {
    var names := AllNames(ps, keys);
    forall i, j | 0 <= i < j < |names| ensures !SameName(names[i], names[j]) {
      ApartByFold(ps, keys, i, j);
      FoldIdentifies(names[i], names[j]);
    }
  }

  lemma DistinctFromApart(ps: Params, keys: seq<string>)
    requires AllApart(ps, keys) && Enumerates(ps, keys) && forall k :: k in ps ==> k in keys
    ensures Distinct(ps)
  {
    forall a, b | a in ps && b in ps && Fold(a) == Fold(b) ensures a == b {
      var i :| 0 <= i < |keys| && keys[i] == a;
      var j :| 0 <= j < |keys| && keys[j] == b;
      var names := AllNames(ps, keys);
      assert names[i] == a && names[j] == b;
      FoldIdentifies(a, b);
      FoldIdentifies(b, a);
    }
  }

  lemma OptionsApartFromApart(ps: Params, keys: seq<string>)
    requires AllApart(ps, keys) && Enumerates(ps, keys) && forall k :: k in ps ==> k in keys
    ensures OptionsDistinct(OptionsOf(ps)) && OptionsApart(ps, OptionsOf(ps))
  {
    var gs, names, n := OptionsOf(ps), AllNames(ps, keys), |keys|;
    forall i, j | 0 <= i < j < |gs| ensures Fold(gs[i].name) != Fold(gs[j].name) {
      assert names[n + i] == gs[i].name && names[n + j] == gs[j].name;
      FoldIdentifies(gs[i].name, gs[j].name);
    }
    forall i, k | 0 <= i < |gs| && k in ps ensures Fold(gs[i].name) != Fold(k) {
      var j :| 0 <= j < n && keys[j] == k;
      assert names[j] == k && names[n + i] == gs[i].name;
      FoldIdentifies(k, gs[i].name);
    }
  }

  /** And that is all the policy asks of the names: it accepts exactly the packets that
      name a user and a database, give every name a value it may have, at the top level
      and in options, ask for at most 64 settings, and give no name twice. */
  lemma AcceptsExactly(ps: Params, keys: seq<string>)
    requires Enumerates(ps, keys) && forall k :: k in ps ==> k in keys
    ensures Accepts(ps) <==>
              && Named(ps, "user") && Named(ps, "database") && KeysOk(ps) && OptionsOk(OptionsOf(ps))
              && |Collected(ps)| <= 64 && AllApart(ps, keys)
  {
    if Accepts(ps) {
      AcceptedNamesDistinct(ps, keys);
    } else if AllApart(ps, keys) {
      DistinctFromApart(ps, keys);
      OptionsApartFromApart(ps, keys);
    }
  }

  // ---- the policy name by name ----

  const OWN_NAMES: set<string> := {"user", "database", "options", "replication"}

  /** A name the packet may ask a setting by: none of the protocol's own, and no spelling
      of the two that are carved out. */
  ghost predicate SettingName(n: string) {
    n !in OWN_NAMES && !SameName(n, "application_name") && !SameName(n, "client_encoding")
  }

  predicate ProtocolExtension(n: string) { |n| >= 5 && n[..5] == "_pq_." }

  lemma SpecialExactly(n: string)
    ensures SpecialName(n) == Plain <==> SettingName(n) && !ProtocolExtension(n)
    ensures SpecialName(n) == Extension <==> ProtocolExtension(n)
    ensures Collectable(Setting(n, "")) <==> SettingName(n)
    ensures n in OWN_NAMES ==> (SpecialName(n) == Replication <==> n == "replication")
                               && (SpecialName(n) == OptionsKey <==> n == "options")
  {
    SpecialThroughFold(n);
    assert "_pq_." <= n <==> ProtocolExtension(n);
    if ProtocolExtension(n) {
      ExtensionIsNotOurs(n);
    }
  }

  lemma ExtensionIsNotOurs(n: string)
    requires ProtocolExtension(n)
    ensures n !in OWN_NAMES
  {
    assert n[0] == n[..5][0] == '_';
    assert "user"[0] == 'u' && "database"[0] == 'd' && "options"[0] == 'o' && "replication"[0] == 'r';
  }

  ghost predicate AsksFor(g: Setting, n: string, v: string) { g == Setting(n, v) && SettingName(n) }

  ghost predicate OptionAsks(gs: seq<Setting>, n: string, v: string) {
    exists i :: 0 <= i < |gs| && AsksFor(gs[i], n, v)
  }

  lemma OptionAsksExactly(gs: seq<Setting>, n: string, v: string)
    ensures OptionGives(gs, n, v) <==> OptionAsks(gs, n, v)
  {
    SpecialExactly(n);
    if i: nat :| Mentions(gs, n, i) && gs[i].value == v {
      assert AsksFor(gs[i], n, v);
    }
    if i :| 0 <= i < |gs| && AsksFor(gs[i], n, v) {
      assert Mentions(gs, n, i);
    }
  }

  /** The settings of an accepted packet, name by name: those it asks for at the top level
      but protocol extensions, and those its options ask for, extensions included. */
  lemma CollectedExactly(ps: Params, n: string, v: string)
    requires Accepts(ps)
    ensures Maps(Collected(ps), n, v) <==>
              || (Maps(ps, n, v) && SettingName(n) && !ProtocolExtension(n))
              || OptionAsks(OptionsOf(ps), n, v)
  {
    AcceptedSettings(ps, n, v);
    SpecialExactly(n);
    OptionAsksExactly(OptionsOf(ps), n, v);
  }

  /** A setting may be given in options unless it is one of the protocol's own names, or
      an encoding other than UTF-8. */
  ghost predicate MayBeOption(g: Setting) {
    g.name !in OWN_NAMES && (SameName(g.name, "client_encoding") ==> Utf8(g.value))
  }

  lemma OptionOkExactly(g: Setting)
    ensures OptionOk(g) <==> MayBeOption(g)
  {
    SpecialThroughFold(g.name);
    SpecialExactly(g.name);
  }

  /** A value may be anything, but under three names. */
  ghost predicate MayBeValue(n: string, v: string) {
    && n != "replication"
    && (SameName(n, "client_encoding") ==> Utf8(v))
    && (n == "options" ==> ParseOptions(v).Some?)
  }

  lemma KeyOkExactly(n: string, v: string)
    ensures KeyOk(n, v) <==> MayBeValue(n, v)
  {
    SpecialThroughFold(n);
    SpecialExactly(n);
  }

  /** The values a packet may give: no replication, no encoding but UTF-8 at either level,
      and options that can be read and ask for nothing of the protocol's own. */
  lemma ValuesExactly(ps: Params)
    ensures KeysOk(ps) && OptionsOk(OptionsOf(ps)) <==>
              && (forall k :: k in ps ==> MayBeValue(k, ps[k]))
              && ("options" in ps ==>
                    && ParseOptions(ps["options"]).Some?
                    && forall i :: 0 <= i < |ParseOptions(ps["options"]).value| ==>
                         MayBeOption(ParseOptions(ps["options"]).value[i]))
  {
    forall k | k in ps ensures KeyOk(k, ps[k]) <==> MayBeValue(k, ps[k]) {
      KeyOkExactly(k, ps[k]);
    }
    forall i | 0 <= i < |OptionsOf(ps)| ensures OptionOk(OptionsOf(ps)[i]) <==> MayBeOption(OptionsOf(ps)[i]) {
      OptionOkExactly(OptionsOf(ps)[i]);
    }
  }

  // ---- spelling ----

  function Respell(ps: Params, k: string, k2: string): Params
    requires k in ps
  {
    (ps - {k})[k2 := ps[k]]
  }

  lemma RespellKeys(ps: Params, k: string, k2: string)
    requires Distinct(ps) && KeysOk(ps) && k in ps && CarvedOut(k) && Fold(k2) == Fold(k)
    ensures Distinct(Respell(ps, k, k2)) && KeysOk(Respell(ps, k, k2))
  {
    var qs := Respell(ps, k, k2);
    SpecialThroughFold(k);
    SpecialThroughFold(k2);
    forall a, b | a in qs && b in qs && Fold(a) == Fold(b) ensures a == b {
      var a', b' := if a == k2 then k else a, if b == k2 then k else b;
      assert a' in ps && b' in ps && Fold(a') == Fold(b');
    }
    assert KeyOk(k, ps[k]);
    forall q | q in qs ensures KeyOk(q, qs[q]) {
      assert q != k2 ==> KeyOk(q, ps[q]);
    }
  }

  lemma RespellOther(ps: Params, k: string, k2: string, x: string)
    requires k in ps && CarvedOut(k) && Fold(k2) == Fold(k) && !CarvedOut(x)
    ensures x in Respell(ps, k, k2) <==> x in ps
    ensures x in ps ==> Respell(ps, k, k2)[x] == ps[x]
  {
  }

  lemma RespellTop(ps: Params, k: string, k2: string)
    requires k in ps && CarvedOut(k) && Fold(k2) == Fold(k)
    ensures TopSettings(Respell(ps, k, k2)) == TopSettings(ps)
  {
    var qs := Respell(ps, k, k2);
    forall x ensures x in TopSettings(qs) <==> x in TopSettings(ps)
             ensures x in TopSettings(ps) ==> TopSettings(qs)[x] == TopSettings(ps)[x]
    {
      if SpecialName(x) == Plain {
        NotCarvedOut(x);
        RespellOther(ps, k, k2, x);
      }
    }
  }

  lemma RespellSettings(ps: Params, k: string, k2: string)
    requires k in ps && CarvedOut(k) && Fold(k2) == Fold(k)
    ensures OptionsOf(Respell(ps, k, k2)) == OptionsOf(ps)
    ensures Named(Respell(ps, k, k2), "user") <==> Named(ps, "user")
    ensures Named(Respell(ps, k, k2), "database") <==> Named(ps, "database")
  {
    NotCarvedOut("user");
    RespellOther(ps, k, k2, "user");
    NotCarvedOut("database");
    RespellOther(ps, k, k2, "database");
    NotCarvedOut("options");
    RespellOther(ps, k, k2, "options");
  }

  lemma RespellAccepted(ps: Params, k: string, k2: string, qs: Params)
    requires Accepts(ps) && k in ps && CarvedOut(k) && Fold(k2) == Fold(k) && qs == Respell(ps, k, k2)
    ensures Accepts(qs) && Collected(qs) == Collected(ps)
  {
    RespellKeys(ps, k, k2);
    RespellTop(ps, k, k2);
    RespellSettings(ps, k, k2);
    forall i, q | 0 <= i < |OptionsOf(ps)| && q in qs ensures Fold(OptionsOf(ps)[i].name) != Fold(q) {
      assert q != k2 ==> q in ps;
    }
  }

  /** The verdict and the settings do not depend on how a carved-out name is
      spelled: any spelling gets what any other gets. */
  lemma SpellingIrrelevant(ps: Params, k: string, k2: string)
    requires k in ps && CarvedOut(k) && Fold(k2) == Fold(k) && k2 !in ps
    ensures Accepts(ps) <==> Accepts(Respell(ps, k, k2))
    ensures Accepts(ps) ==> Collected(ps) == Collected(Respell(ps, k, k2))
  {
    var qs := Respell(ps, k, k2);
    RespellBack(ps, k, k2);
    if Accepts(ps) {
      RespellAccepted(ps, k, k2, qs);
    } else if Accepts(qs) {
      RespellAccepted(qs, k2, k, ps);
    }
  }

  lemma RespellBack(ps: Params, k: string, k2: string)
    requires k in ps && k2 !in ps
    ensures Respell(Respell(ps, k, k2), k2, k) == ps
  {
  }

  // ---- path ----

  predicate NoSpelling(ps: Params, name: string) {
    forall k :: k in ps ==> Fold(k) != Fold(name)
  }

  predicate Unnamed(gs: seq<Setting>, name: string) {
    forall i :: 0 <= i < |gs| ==> Fold(gs[i].name) != Fold(name)
  }

  function Inserted(gs: seq<Setting>, i: nat, g: Setting): seq<Setting>
    requires i <= |gs|
  {
    gs[..i] + [g] + gs[i..]
  }

  /** Where the j-th setting stands once one has been inserted before the i-th. */
  function Shift(i: nat, j: nat): nat { if j < i then j else j + 1 }

  lemma InsertedAt(gs: seq<Setting>, i: nat, g: Setting, j: nat)
    requires i <= |gs| && j < |gs|
    ensures |Inserted(gs, i, g)| == |gs| + 1 && Inserted(gs, i, g)[i] == g
    ensures Shift(i, j) < |gs| + 1 && Inserted(gs, i, g)[Shift(i, j)] == gs[j]
  {
  }

  lemma InsertedFrom(gs: seq<Setting>, i: nat, g: Setting, j: nat)
    requires i <= |gs| && j < |Inserted(gs, i, g)|
    ensures Inserted(gs, i, g)[j] == g || exists k :: 0 <= k < |gs| && Inserted(gs, i, g)[j] == gs[k]
    ensures j != i ==> exists k :: 0 <= k < |gs| && j == Shift(i, k)
  {
    if j < i {
      assert Inserted(gs, i, g)[j] == gs[j] && j == Shift(i, j);
    } else if j > i {
      assert Inserted(gs, i, g)[j] == gs[j - 1] && j == Shift(i, j - 1);
    }
  }

  lemma InsertedOk(gs: seq<Setting>, i: nat, g: Setting)
    requires i <= |gs|
    ensures OptionsOk(Inserted(gs, i, g)) <==> OptionsOk(gs) && OptionOk(g)
  {
    var hs := Inserted(gs, i, g);
    if OptionsOk(hs) {
      assert OptionOk(hs[i]);
      forall j | 0 <= j < |gs| ensures OptionOk(gs[j]) {
        InsertedAt(gs, i, g, j);
        assert OptionOk(hs[Shift(i, j)]);
      }
    }
    if OptionsOk(gs) && OptionOk(g) {
      forall j | 0 <= j < |hs| ensures OptionOk(hs[j]) {
        InsertedFrom(gs, i, g, j);
      }
    }
  }

  lemma InsertedApartFrom(gs: seq<Setting>, i: nat, g: Setting, j: nat)
    requires i <= |gs| && j < |gs|
    requires OptionsDistinct(Inserted(gs, i, g))
    ensures Fold(gs[j].name) != Fold(g.name)
  {
    var hs := Inserted(gs, i, g);
    InsertedAt(gs, i, g, j);
    if j < i {
      assert Fold(hs[j].name) != Fold(hs[i].name);
    } else {
      assert Fold(hs[i].name) != Fold(hs[j + 1].name);
    }
  }

  lemma DistinctBefore(gs: seq<Setting>, i: nat, g: Setting)
    requires i <= |gs| && OptionsDistinct(Inserted(gs, i, g))
    ensures OptionsDistinct(gs) && Unnamed(gs, g.name)
  {
    var hs := Inserted(gs, i, g);
    forall j | 0 <= j < |gs| ensures Fold(gs[j].name) != Fold(g.name) {
      InsertedApartFrom(gs, i, g, j);
    }
    forall a, b | 0 <= a < b < |gs| ensures Fold(gs[a].name) != Fold(gs[b].name) {
      InsertedAt(gs, i, g, a);
      InsertedAt(gs, i, g, b);
      assert Fold(hs[Shift(i, a)].name) != Fold(hs[Shift(i, b)].name);
    }
  }

  lemma DistinctPair(gs: seq<Setting>, i: nat, g: Setting, a: nat, b: nat)
    requires i <= |gs| && OptionsDistinct(gs) && Unnamed(gs, g.name) && a < b < |Inserted(gs, i, g)|
    ensures Fold(Inserted(gs, i, g)[a].name) != Fold(Inserted(gs, i, g)[b].name)
  {
    var hs := Inserted(gs, i, g);
    InsertedFrom(gs, i, g, a);
    InsertedFrom(gs, i, g, b);
    if a != i && b != i {
      var j :| 0 <= j < |gs| && a == Shift(i, j);
      var k :| 0 <= k < |gs| && b == Shift(i, k);
      InsertedAt(gs, i, g, j);
      InsertedAt(gs, i, g, k);
      assert Fold(gs[j].name) != Fold(gs[k].name);
    } else if a == i {
      var k :| 0 <= k < |gs| && b == Shift(i, k);
      InsertedAt(gs, i, g, k);
    } else {
      var j :| 0 <= j < |gs| && a == Shift(i, j);
      InsertedAt(gs, i, g, j);
    }
  }

  lemma InsertedDistinct(gs: seq<Setting>, i: nat, g: Setting)
    requires i <= |gs|
    ensures OptionsDistinct(Inserted(gs, i, g)) <==> OptionsDistinct(gs) && Unnamed(gs, g.name)
  {
    var hs := Inserted(gs, i, g);
    if OptionsDistinct(hs) {
      DistinctBefore(gs, i, g);
    }
    if OptionsDistinct(gs) && Unnamed(gs, g.name) {
      forall a, b | 0 <= a < b < |hs| ensures Fold(hs[a].name) != Fold(hs[b].name) {
        DistinctPair(gs, i, g, a, b);
      }
    }
  }

  lemma InsertedApart(ps: Params, gs: seq<Setting>, i: nat, g: Setting)
    requires i <= |gs|
    ensures OptionsApart(ps, Inserted(gs, i, g)) <==> OptionsApart(ps, gs) && NoSpelling(ps, g.name)
  {
    var hs := Inserted(gs, i, g);
    if OptionsApart(ps, hs) {
      forall k | k in ps ensures Fold(k) != Fold(g.name) {
        assert Fold(hs[i].name) != Fold(k);
      }
      forall j, k | 0 <= j < |gs| && k in ps ensures Fold(gs[j].name) != Fold(k) {
        InsertedAt(gs, i, g, j);
        assert Fold(hs[Shift(i, j)].name) != Fold(k);
      }
    }
    if OptionsApart(ps, gs) && NoSpelling(ps, g.name) {
      forall j, k | 0 <= j < |hs| && k in ps ensures Fold(hs[j].name) != Fold(k) {
        InsertedFrom(gs, i, g, j);
      }
    }
  }

  function OneMoreSetting(m: Params, g: Setting): Params { if Collectable(g) then m[g.name := g.value] else m }

  lemma SettingsSnoc(a: seq<Setting>, g: Setting)
    ensures OptionSettings(a + [g]) == OneMoreSetting(OptionSettings(a), g)
  {
    assert (a + [g])[..|a|] == a;
  }

  lemma {:induction false} SettingsConcat(a: seq<Setting>, b: seq<Setting>)
    ensures OptionSettings(a + b) == OptionSettings(a) + OptionSettings(b)
    decreases |b|
  {
    if b == [] {
      assert a + b == a;
    } else {
      var init, g := b[..|b| - 1], b[|b| - 1];
      assert a + b == (a + init) + [g] && b == init + [g];
      SettingsConcat(a, init);
      SettingsSnoc(a + init, g);
      SettingsSnoc(init, g);
      MergeThenAdd(OptionSettings(a), OptionSettings(init), g.name, g.value);
    }
  }

  lemma MergeThenAdd(a: Params, b: Params, n: string, v: string)
    ensures a + b[n := v] == (a + b)[n := v]
  {
  }

  /** Takes hs and gs as given, so that neither is unfolded. */
  lemma WithoutMiddle(a: seq<Setting>, g: Setting, b: seq<Setting>, gs: seq<Setting>, hs: seq<Setting>)
    requires !Collectable(g) && gs == a + b && hs == (a + [g]) + b
    ensures OptionSettings(hs) == OptionSettings(gs)
  {
    SettingsConcat(a + [g], b);
    SettingsConcat(a, b);
    SettingsSnoc(a, g);
  }

  lemma Rejoined(gs: seq<Setting>, i: nat)
    requires i <= |gs|
    ensures gs == gs[..i] + gs[i..]
  {
  }

  lemma InsertedSettings(gs: seq<Setting>, i: nat, g: Setting)
    requires i <= |gs| && !Collectable(g)
    ensures OptionSettings(Inserted(gs, i, g)) == OptionSettings(gs)
  {
    Rejoined(gs, i);
    WithoutMiddle(gs[..i], g, gs[i..], gs, Inserted(gs, i, g));
  }

  lemma OneMoreDistinct(ps: Params, k: string, v: string)
    requires k !in ps
    ensures Distinct(ps[k := v]) <==> Distinct(ps) && NoSpelling(ps, k)
  {
    var qs := ps[k := v];
    if Distinct(qs) {
      forall a, b | a in ps && b in ps && Fold(a) == Fold(b) ensures a == b {
        assert a in qs && b in qs;
      }
      forall a | a in ps ensures Fold(a) != Fold(k) {
        assert a in qs && k in qs;
      }
    }
  }

  lemma OneMoreKey(ps: Params, k: string, v: string)
    requires k !in ps
    ensures KeysOk(ps[k := v]) <==> KeysOk(ps) && KeyOk(k, v)
    ensures SpecialName(k) != Plain ==> TopSettings(ps[k := v]) == TopSettings(ps)
  {
    var qs := ps[k := v];
    if KeysOk(qs) {
      forall j | j in ps ensures KeyOk(j, ps[j]) {
        assert KeyOk(j, qs[j]);
      }
      assert KeyOk(k, qs[k]);
    }
  }

  lemma OneMoreApart(ps: Params, gs: seq<Setting>, k: string, v: string)
    requires k !in ps
    ensures OptionsApart(ps[k := v], gs) <==> OptionsApart(ps, gs) && Unnamed(gs, k)
  {
    if OptionsApart(ps[k := v], gs) {
      forall i | 0 <= i < |gs| ensures Fold(gs[i].name) != Fold(k) {
        assert k in ps[k := v];
      }
      forall i, j | 0 <= i < |gs| && j in ps ensures Fold(gs[i].name) != Fold(j) {
        assert j in ps[k := v];
      }
    }
  }

  /** Two packets with the same keys, that differ in an options text both of which
      can be read. */
  lemma OtherText(ps: Params, o1: string, o2: string)
    requires ParseOptions(o1).Some? && ParseOptions(o2).Some?
    ensures var q1, q2 := ps["options" := o1], ps["options" := o2];
            && (Distinct(q1) <==> Distinct(q2)) && (KeysOk(q1) <==> KeysOk(q2)) && TopSettings(q1) == TopSettings(q2)
            && (Named(q1, "user") <==> Named(q2, "user")) && (Named(q1, "database") <==> Named(q2, "database"))
  {
    var q1, q2 := ps["options" := o1], ps["options" := o2];
    OptionsKeyExactly("options");
    assert q1.Keys == q2.Keys;
    assert KeyOk("options", o1) && KeyOk("options", o2);
    assert forall k :: k in q1 && k != "options" ==> q1[k] == q2[k];
    assert TopSettings(q1) == TopSettings(q2);
  }

  lemma SameKeys(q1: Params, q2: Params, gs: seq<Setting>, name: string)
    requires q1.Keys == q2.Keys
    ensures OptionsApart(q1, gs) <==> OptionsApart(q2, gs)
    ensures NoSpelling(q1, name) <==> NoSpelling(q2, name)
  {
    assert forall k :: k in q1 <==> k in q2;
  }

  /** What a packet without the name must meet to be accepted with it. */
  ghost predicate AcceptsWith(qs: Params, gs: seq<Setting>, k: string, v: string) {
    && Distinct(qs) && NoSpelling(qs, k) && KeysOk(qs) && KeyOk(k, v)
    && Named(qs, "user") && Named(qs, "database")
    && OptionsOk(gs) && OptionsDistinct(gs) && Unnamed(gs, k) && OptionsApart(qs, gs)
    && |TopSettings(qs) + OptionSettings(gs)| <= STARTUP_GUC_LIMIT
  }

  lemma OtherKey(ps: Params, k: string, v: string, x: string)
    requires k != x
    ensures Named(ps[k := v], x) <==> Named(ps, x)
    ensures x in ps[k := v] <==> x in ps
    ensures x in ps ==> ps[k := v][x] == ps[x]
  {
  }

  lemma CarvedOutKey(k: string, v: string)
    requires CarvedOut(k)
    ensures k != "user" && k != "database" && k != "options" && SpecialName(k) != Plain
    ensures OptionOk(Setting(k, v)) <==> KeyOk(k, v)
    ensures !Collectable(Setting(k, v))
  {
    NotCarvedOut("user");
    NotCarvedOut("database");
    NotCarvedOut("options");
    SpecialThroughFold(k);
  }

  lemma OptionsAre(ps: Params, o: string, gs: seq<Setting>)
    requires "options" in ps && ps["options"] == o && ParseOptions(o) == Some(gs)
    ensures OptionsOf(ps) == gs
  {
  }

  lemma AtTopLevel(qs: Params, gs: seq<Setting>, k: string, v: string)
    requires CarvedOut(k) && k !in qs && "options" in qs && ParseOptions(qs["options"]) == Some(gs)
    ensures Accepts(qs[k := v]) <==> AcceptsWith(qs, gs, k, v)
    ensures Collected(qs[k := v]) == TopSettings(qs) + OptionSettings(gs)
  {
    CarvedOutKey(k, v);
    OtherKey(qs, k, v, "user");
    OtherKey(qs, k, v, "database");
    OtherKey(qs, k, v, "options");
    OptionsAre(qs[k := v], qs["options"], gs);
    OneMoreDistinct(qs, k, v);
    OneMoreKey(qs, k, v);
    OneMoreApart(qs, gs, k, v);
  }

  lemma InOptions(qs: Params, gs: seq<Setting>, i: nat, g: Setting)
    requires CarvedOut(g.name) && i <= |gs|
    requires "options" in qs && ParseOptions(qs["options"]) == Some(Inserted(gs, i, g))
    ensures Accepts(qs) <==> AcceptsWith(qs, gs, g.name, g.value)
    ensures Collected(qs) == TopSettings(qs) + OptionSettings(gs)
  {
    CarvedOutKey(g.name, g.value);
    OptionsAre(qs, qs["options"], Inserted(gs, i, g));
    InsertedOk(gs, i, g);
    InsertedDistinct(gs, i, g);
    InsertedApart(qs, gs, i, g);
    InsertedSettings(gs, i, g);
  }

  lemma AcceptsWithEither(q1: Params, q2: Params, gs: seq<Setting>, k: string, v: string)
    requires q1.Keys == q2.Keys && TopSettings(q1) == TopSettings(q2)
    requires (Distinct(q1) <==> Distinct(q2)) && (KeysOk(q1) <==> KeysOk(q2))
    requires (Named(q1, "user") <==> Named(q2, "user")) && (Named(q1, "database") <==> Named(q2, "database"))
    ensures AcceptsWith(q1, gs, k, v) <==> AcceptsWith(q2, gs, k, v)
  {
    SameKeys(q1, q2, gs, k);
  }

  lemma TextIrrelevant(ps: Params, o1: string, o2: string, gs: seq<Setting>, k: string, v: string)
    requires ParseOptions(o1).Some? && ParseOptions(o2).Some?
    ensures AcceptsWith(ps["options" := o1], gs, k, v) <==> AcceptsWith(ps["options" := o2], gs, k, v)
    ensures TopSettings(ps["options" := o1]) == TopSettings(ps["options" := o2])
  {
    OtherText(ps, o1, o2);
    AcceptsWithEither(ps["options" := o1], ps["options" := o2], gs, k, v);
  }

  /** Nor on the path: for any packet, any options text that names any settings, and
      any text that names the same ones with a carved-out name among them, that name
      gets the verdict, and leaves the settings, that it would at the top level. */
  lemma PathIrrelevant(ps: Params, o1: string, o2: string, gs: seq<Setting>, i: nat, k: string, v: string)
    requires CarvedOut(k) && k !in ps && i <= |gs|
    requires ParseOptions(o1) == Some(gs) && ParseOptions(o2) == Some(Inserted(gs, i, Setting(k, v)))
    ensures Accepts(ps["options" := o1][k := v]) <==> Accepts(ps["options" := o2])
    ensures Collected(ps["options" := o1][k := v]) == Collected(ps["options" := o2])
  {
    var q1, q2 := ps["options" := o1], ps["options" := o2];
    CarvedOutKey(k, v);
    TextIrrelevant(ps, o1, o2, gs, k, v);
    AtTopLevel(q1, gs, k, v);
    InOptions(q2, gs, i, Setting(k, v));
  }

  // ---- where application_name ends up ----

  lemma InsertedNames(gs: seq<Setting>, i: nat, g: Setting, w: string)
    requires i <= |gs|
    ensures OptionNames(Inserted(gs, i, g), w) <==>
            OptionNames(gs, w) || (Fold(g.name) == APPLICATION_NAME && g.value == w)
  {
    var hs := Inserted(gs, i, g);
    assert hs[i] == g;
    if j :| 0 <= j < |gs| && Fold(gs[j].name) == APPLICATION_NAME && gs[j].value == w {
      InsertedAt(gs, i, g, j);
      assert hs[Shift(i, j)] == gs[j];
    }
    if j :| 0 <= j < |hs| && Fold(hs[j].name) == APPLICATION_NAME && hs[j].value == w {
      InsertedFrom(gs, i, g, j);
    }
  }

  lemma OneMoreName(ps: Params, k: string, v: string, w: string)
    requires k !in ps
    ensures TopNames(ps[k := v], w) <==> TopNames(ps, w) || (Fold(k) == APPLICATION_NAME && v == w)
  {
    var qs := ps[k := v];
    if j :| j in ps && Fold(j) == APPLICATION_NAME && ps[j] == w {
      assert j in qs && qs[j] == w;
    }
    if Fold(k) == APPLICATION_NAME && v == w {
      assert k in qs && qs[k] == w;
    }
  }

  lemma TextNamesNothing(ps: Params, o1: string, o2: string, w: string)
    ensures TopNames(ps["options" := o1], w) <==> TopNames(ps["options" := o2], w)
  {
    NotCarvedOut("options");
    var q1, q2 := ps["options" := o1], ps["options" := o2];
    if k :| k in q1 && Fold(k) == APPLICATION_NAME && q1[k] == w {
      assert k in q2 && q2[k] == w;
    }
    if k :| k in q2 && Fold(k) == APPLICATION_NAME && q2[k] == w {
      assert k in q1 && q1[k] == w;
    }
  }

  /** The two packets of PathIrrelevant give one value for application_name, and so
      leave one value of it behind. */
  lemma PathKeepsName(ps: Params, o1: string, o2: string, gs: seq<Setting>, i: nat, g: Setting, w: string)
    requires CarvedOut(g.name) && g.name !in ps && i <= |gs|
    ensures GivesName(ps["options" := o1][g.name := g.value], gs, w)
       <==> GivesName(ps["options" := o2], Inserted(gs, i, g), w)
  {
    CarvedOutKey(g.name, g.value);
    OneMoreName(ps["options" := o1], g.name, g.value, w);
    TextNamesNothing(ps, o1, o2, w);
    InsertedNames(gs, i, g, w);
  }
}
