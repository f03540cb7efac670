/** The startup parameter policy: what a packet's parameters and its `options` ask
    for together, judged by name whatever its spelling, its path or the order of
    the map (frontdoor/params.go:87-127, 162-466, 697-730). */
module StartupParams {
  import opened Optional
  import opened StartupOptions
  import opened WireText

  type Params = map<string, string>

  const STARTUP_GUC_LIMIT := 64
  const APPLICATION_NAME: string := "application_name"
  const CLIENT_ENCODING: string := "client_encoding"

  // ---- names ----

  lemma CanonicalFolded()
    ensures Fold(APPLICATION_NAME) == APPLICATION_NAME && Fold(CLIENT_ENCODING) == CLIENT_ENCODING
    ensures |APPLICATION_NAME| == 16 && APPLICATION_NAME[0] == 'a'
    ensures |CLIENT_ENCODING| == 15 && CLIENT_ENCODING[0] == 'c'
  {
  }

  datatype Special = Plain | Extension | User | Database | OptionsKey | Replication | ApplicationName | ClientEncoding

  /** Which of the governed names this is: byte-wise for the protocol's own, through
      the fold for the two settings governed here. */
  function SpecialName(name: string): Special {
    if "_pq_." <= name then Extension
    else if name == "user" then User
    else if name == "database" then Database
    else if name == "options" then OptionsKey
    else if name == "replication" then Replication
    else if Fold(name) == APPLICATION_NAME then ApplicationName
    else if Fold(name) == CLIENT_ENCODING then ClientEncoding
    else Plain
  }

  datatype Decision = Accept | Collect | Refuse | Negotiate

  function Policy(name: string): Decision {
    match SpecialName(name)
    case Extension => Negotiate
    case Replication => Refuse
    case Plain => Collect
    case _ => Accept
  }

  predicate CarvedOut(name: string) { Fold(name) == APPLICATION_NAME || Fold(name) == CLIENT_ENCODING }

  lemma SpecialThroughFold(name: string)
    ensures SpecialName(name) == ApplicationName <==> Fold(name) == APPLICATION_NAME
    ensures SpecialName(name) == ClientEncoding <==> Fold(name) == CLIENT_ENCODING
    ensures SpecialName(name) == ApplicationName <==> SameName(name, APPLICATION_NAME)
    ensures SpecialName(name) == ClientEncoding <==> SameName(name, CLIENT_ENCODING)
    ensures CarvedOut(name) ==> SpecialName(Fold(name)) == SpecialName(name)
  {
    CanonicalFolded();
    FoldTwice(name);
    FoldIdentifies(name, APPLICATION_NAME);
    FoldIdentifies(name, CLIENT_ENCODING);
    if "_pq_." <= name {
      assert name[0] == '_' && Fold(name)[0] == '_';
    }
  }

  // ---- values ----

  predicate Utf8(v: string) {
    var t := Fold(Trim(v));
    t == "utf8" || t == "utf-8"
  }

  lemma PlainEnds(x: string)
    requires |x| >= 3 && 'A' <= x[0] <= 'z' && x[|x| - 1] == '8'
    requires forall i :: 0 <= i < |x| ==> x[i] as int < 128
    ensures SpaceWidth(x) == 0 && SpaceWidthAtEnd(x) == 0
  {
    var n := |x|;
    assert x[n - 1..][0] == x[n - 1] && x[n - 2..][0] == x[n - 2] && x[n - 3..][0] == x[n - 3];
  }

  lemma NamesUtf8(x: string)
    requires SameName(x, "utf8") || SameName(x, "utf-8")
    ensures SpaceWidth(x) == 0 && SpaceWidthAtEnd(x) == 0
  {
    FoldIdentifies(x, "utf8");
    FoldIdentifies(x, "utf-8");
    assert Fold("utf8") == "utf8" && Fold("utf-8") == "utf-8";
    assert forall i :: 0 <= i < |x| ==> Fold(x)[i] == FoldByte(x[i]) && FoldByte(x[i]) as int < 128;
    assert FoldByte(x[0]) == 'u' && FoldByte(x[|x| - 1]) == '8';
    PlainEnds(x);
  }

  /** The value names UTF-8 exactly when nothing but blanks stand around one of its two
      names, in any spelling. */
  lemma Utf8Exactly(v: string)
    ensures Utf8(v) <==> exists x :: Between(v, x) && (SameName(x, "utf8") || SameName(x, "utf-8"))
  {
    assert Fold("utf8") == "utf8" && Fold("utf-8") == "utf-8";
    if Utf8(v) {
      FoldIdentifies(Trim(v), "utf8");
      FoldIdentifies(Trim(v), "utf-8");
      TrimExactly(v, Trim(v));
    }
    if x :| Between(v, x) && (SameName(x, "utf8") || SameName(x, "utf-8")) {
      FoldIdentifies(x, "utf8");
      FoldIdentifies(x, "utf-8");
      NamesUtf8(x);
      TrimExactly(v, x);
    }
  }

  // ---- what a startup may ask for ----

  /** No two parameters name one thing. */
  predicate Distinct(ps: Params) {
    forall a, b :: a in ps && b in ps && Fold(a) == Fold(b) ==> a == b
  }

  predicate Named(ps: Params, key: string) { key in ps && !Blank(ps[key]) }

  predicate KeyOk(key: string, value: string) {
    match SpecialName(key)
    case Replication => false
    case ClientEncoding => Utf8(value)
    case OptionsKey => ParseOptions(value).Some?
    case _ => true
  }

  predicate KeysOk(ps: Params) { forall k :: k in ps ==> KeyOk(k, ps[k]) }

  function OptionsOf(ps: Params): seq<Setting> {
    if "options" in ps && ParseOptions(ps["options"]).Some? then ParseOptions(ps["options"]).value else []
  }

  /** Inside options the identity, the route and the mode have no second spelling. */
  predicate OptionOk(g: Setting) {
    match SpecialName(g.name)
    case Plain => true
    case Extension => true
    case ApplicationName => true
    case ClientEncoding => Utf8(g.value)
    case _ => false
  }

  predicate OptionsOk(gs: seq<Setting>) { forall i :: 0 <= i < |gs| ==> OptionOk(gs[i]) }

  predicate OptionsDistinct(gs: seq<Setting>) {
    forall i, j :: 0 <= i < j < |gs| ==> Fold(gs[i].name) != Fold(gs[j].name)
  }

  predicate OptionsApart(ps: Params, gs: seq<Setting>) {
    forall i, k :: 0 <= i < |gs| && k in ps ==> Fold(gs[i].name) != Fold(k)
  }

  function TopSettings(ps: Params): Params {
    map k | k in ps && SpecialName(k) == Plain :: ps[k]
  }

  predicate Collectable(g: Setting) { SpecialName(g.name) == Plain || SpecialName(g.name) == Extension }

  function OptionSettings(gs: seq<Setting>): Params {
    if gs == [] then map[]
    else
      var rest, g := OptionSettings(gs[..|gs| - 1]), gs[|gs| - 1];
      if Collectable(g) then rest[g.name := g.value] else rest
  }

  /** The settings handed to the engine, under the client's own spelling. */
  function Collected(ps: Params): Params {
    TopSettings(ps) + OptionSettings(OptionsOf(ps))
  }

  predicate PacketOk(ps: Params) {
    Distinct(ps) && Named(ps, "user") && Named(ps, "database") && KeysOk(ps)
  }

  predicate OptionsFit(ps: Params, gs: seq<Setting>) {
    OptionsOk(gs) && OptionsDistinct(gs) && OptionsApart(ps, gs)
  }

  predicate Accepts(ps: Params) {
    PacketOk(ps) && OptionsFit(ps, OptionsOf(ps)) && |Collected(ps)| <= STARTUP_GUC_LIMIT
  }

  // ---- canonical spelling of the carved-out names ----

  function RespellKey(c: string, k: string): string { if Fold(k) == c then c else k }

  predicate OneSpelling(ps: Params, c: string) {
    forall a, b :: a in ps && b in ps && Fold(a) == c && Fold(b) == c ==> a == b
  }

  /** `qs` is `ps` with the one key that folds to `c`, if any, spelled `c`. */
  predicate Respelled(ps: Params, qs: Params, c: string) {
    && (forall k :: k in ps ==> RespellKey(c, k) in qs && qs[RespellKey(c, k)] == ps[k])
    && (forall q :: q in qs ==> q == c || q in ps)
    && (c in qs ==> exists k :: k in ps && Fold(k) == c)
    && (forall q :: q in qs && Fold(q) == c ==> q == c)
  }

  method CanonicalizeOne(ps: Params, c: string) returns (ok: bool, qs: Params)
    requires c != "" && Fold(c) == c
    ensures ok <==> OneSpelling(ps, c)
    ensures ok ==> Respelled(ps, qs, c)
  {
    var found, rest := "", ps.Keys;
    while rest != {}
      invariant rest <= ps.Keys
      invariant forall k :: k in ps && k !in rest && Fold(k) == c ==> k == found
      invariant found != "" ==> found in ps && found !in rest && Fold(found) == c
    {
      var k :| k in rest;
      rest := rest - {k};
      if Fold(k) == c {
        if found != "" {
          return false, ps;
        }
        found := k;
      }
    }
    ok, qs := true, ps;
    if found != "" && found != c {
      qs := (ps - {found})[c := ps[found]];
    }
  }

  // ---- the canonical map is judged as the packet would be ----

  /** `qs` is `ps` with both carved-out names in their canonical spelling. */
  predicate Canonical(ps: Params, qs: Params) {
    && (forall k :: k in ps ==> CanonKey(k) in qs && qs[CanonKey(k)] == ps[k])
    && (forall q :: q in qs ==> exists k :: k in ps && CanonKey(k) == q)
  }

  function CanonKey(k: string): string { if CarvedOut(k) then Fold(k) else k }

  lemma CanonKeyKeeps(k: string)
    ensures Fold(CanonKey(k)) == Fold(k) && SpecialName(CanonKey(k)) == SpecialName(k)
  {
    FoldTwice(k);
    SpecialThroughFold(k);
  }

  lemma RespelledTwice(ps: Params, qs: Params, rs: Params)
    requires Respelled(ps, qs, APPLICATION_NAME) && Respelled(qs, rs, CLIENT_ENCODING)
    ensures Canonical(ps, rs)
  {
    CanonicalFolded();
    forall k | k in ps ensures CanonKey(k) in rs && rs[CanonKey(k)] == ps[k] {
      var q := RespellKey(APPLICATION_NAME, k);
      assert q in qs && RespellKey(CLIENT_ENCODING, q) == CanonKey(k);
    }
    forall r | r in rs ensures exists k :: k in ps && CanonKey(k) == r {
      var q := if r == CLIENT_ENCODING then Source(qs, CLIENT_ENCODING) else r;
      assert q in qs && RespellKey(CLIENT_ENCODING, q) == r;
      var k := if q == APPLICATION_NAME then Source(ps, APPLICATION_NAME) else q;
      assert k in ps && RespellKey(APPLICATION_NAME, k) == q;
      assert CanonKey(k) == r;
    }
  }

  ghost function Source(ps: Params, c: string): (k: string)
    requires exists k :: k in ps && Fold(k) == c
    ensures k in ps && Fold(k) == c
  {
    var k :| k in ps && Fold(k) == c;
    k
  }

  method Canonicalize(ps: Params) returns (ok: bool, rs: Params)
    ensures ok <==> OneSpelling(ps, APPLICATION_NAME) && OneSpelling(ps, CLIENT_ENCODING)
    ensures ok ==> Canonical(ps, rs)
  {
    CanonicalFolded();
    var qs;
    ok, qs := CanonicalizeOne(ps, APPLICATION_NAME);
    if !ok {
      return false, ps;
    }
    ok, rs := CanonicalizeOne(qs, CLIENT_ENCODING);
    EncodingUntouched(ps, qs);
    if ok {
      RespelledTwice(ps, qs, rs);
    }
  }

  lemma EncodingUntouched(ps: Params, qs: Params)
    requires Respelled(ps, qs, APPLICATION_NAME)
    ensures OneSpelling(qs, CLIENT_ENCODING) <==> OneSpelling(ps, CLIENT_ENCODING)
  {
    CanonicalFolded();
    forall k | Fold(k) == CLIENT_ENCODING ensures k in ps <==> k in qs {
      assert k in ps ==> RespellKey(APPLICATION_NAME, k) == k;
    }
  }

  lemma CanonicalDistinct(ps: Params, rs: Params)
    requires OneSpelling(ps, APPLICATION_NAME) && OneSpelling(ps, CLIENT_ENCODING) && Canonical(ps, rs)
    ensures Distinct(ps) <==> Distinct(rs)
  {
    if Distinct(rs) {
      forall a, b | a in ps && b in ps && Fold(a) == Fold(b) ensures a == b {
        CanonKeyKeeps(a);
        CanonKeyKeeps(b);
        assert CanonKey(a) == CanonKey(b);
      }
    }
    if Distinct(ps) {
      forall q, r | q in rs && r in rs && Fold(q) == Fold(r) ensures q == r {
        var a :| a in ps && CanonKey(a) == q;
        var b :| b in ps && CanonKey(b) == r;
        CanonKeyKeeps(a);
        CanonKeyKeeps(b);
        assert a == b;
      }
    }
  }

  lemma CanonicalKeys(ps: Params, rs: Params)
    requires Canonical(ps, rs)
    ensures KeysOk(ps) <==> KeysOk(rs)
  {
    if KeysOk(rs) {
      forall k | k in ps ensures KeyOk(k, ps[k]) {
        CanonKeyKeeps(k);
        assert KeyOk(CanonKey(k), rs[CanonKey(k)]);
      }
    }
    if KeysOk(ps) {
      forall q | q in rs ensures KeyOk(q, rs[q]) {
        var k :| k in ps && CanonKey(k) == q;
        CanonKeyKeeps(k);
        assert KeyOk(k, ps[k]);
      }
    }
  }

  lemma ApartThrough(ps: Params, rs: Params, gs: seq<Setting>)
    requires Canonical(ps, rs)
    ensures OptionsApart(ps, gs) <==> OptionsApart(rs, gs)
  {
    if OptionsApart(rs, gs) {
      forall i, k | 0 <= i < |gs| && k in ps ensures Fold(gs[i].name) != Fold(k) {
        CanonKeyKeeps(k);
        assert CanonKey(k) in rs;
      }
    }
    if OptionsApart(ps, gs) {
      forall i, q | 0 <= i < |gs| && q in rs ensures Fold(gs[i].name) != Fold(q) {
        var k :| k in ps && CanonKey(k) == q;
        CanonKeyKeeps(k);
      }
    }
  }

  /** A name that is not carved out is in both maps, or in neither, with one value. */
  lemma CanonicalSame(ps: Params, rs: Params, k: string)
    requires Canonical(ps, rs) && !CarvedOut(k)
    ensures k in ps <==> k in rs
    ensures k in ps ==> ps[k] == rs[k]
  {
    assert k in ps ==> CanonKey(k) == k;
    if k in rs {
      var j :| j in ps && CanonKey(j) == k;
      CanonKeyKeeps(j);
    }
  }

  lemma NotCarvedOut(k: string)
    requires SpecialName(k) != ApplicationName && SpecialName(k) != ClientEncoding
    ensures !CarvedOut(k)
  {
    SpecialThroughFold(k);
  }

  lemma CanonicalTop(ps: Params, rs: Params)
    requires Canonical(ps, rs)
    ensures TopSettings(ps) == TopSettings(rs)
  {
    forall k ensures k in TopSettings(ps) <==> k in TopSettings(rs)
             ensures k in TopSettings(ps) ==> TopSettings(ps)[k] == TopSettings(rs)[k]
    {
      if SpecialName(k) == Plain {
        NotCarvedOut(k);
        CanonicalSame(ps, rs, k);
      }
    }
  }

  lemma CanonicalNamed(ps: Params, rs: Params, key: string)
    requires Canonical(ps, rs) && !CarvedOut(key)
    ensures Named(ps, key) <==> Named(rs, key)
  {
    CanonicalSame(ps, rs, key);
  }

  lemma CanonicalOptions(ps: Params, rs: Params)
    requires Canonical(ps, rs)
    ensures OptionsOf(ps) == OptionsOf(rs)
  {
    NotCarvedOut("options");
    CanonicalSame(ps, rs, "options");
  }

  lemma CanonicalSettings(ps: Params, rs: Params)
    requires Canonical(ps, rs)
    ensures TopSettings(ps) == TopSettings(rs) && OptionsOf(ps) == OptionsOf(rs)
    ensures Named(ps, "user") <==> Named(rs, "user")
    ensures Named(ps, "database") <==> Named(rs, "database")
  {
    NotCarvedOut("user");
    CanonicalNamed(ps, rs, "user");
    NotCarvedOut("database");
    CanonicalNamed(ps, rs, "database");
    CanonicalTop(ps, rs);
    CanonicalOptions(ps, rs);
  }

  lemma CanonicalPacket(ps: Params, rs: Params)
    requires OneSpelling(ps, APPLICATION_NAME) && OneSpelling(ps, CLIENT_ENCODING) && Canonical(ps, rs)
    ensures PacketOk(ps) <==> PacketOk(rs)
  {
    CanonicalDistinct(ps, rs);
    CanonicalKeys(ps, rs);
    CanonicalSettings(ps, rs);
  }

  lemma CanonicalFit(ps: Params, rs: Params, gs: seq<Setting>)
    requires Canonical(ps, rs)
    ensures OptionsFit(ps, gs) <==> OptionsFit(rs, gs)
  {
    ApartThrough(ps, rs, gs);
  }

  /** The packet and its canonical form get one verdict and one set of settings. */
  lemma CanonicalJudged(ps: Params, rs: Params)
    requires OneSpelling(ps, APPLICATION_NAME) && OneSpelling(ps, CLIENT_ENCODING) && Canonical(ps, rs)
    ensures Accepts(ps) <==> Accepts(rs)
    ensures Collected(ps) == Collected(rs)
  {
    CanonicalPacket(ps, rs);
    CanonicalSettings(ps, rs);
    CanonicalFit(ps, rs, OptionsOf(ps));
  }

  // ---- the check ----

  function Folded(ks: set<string>): set<string> { set k | k in ks :: Fold(k) }

  function SettingsAmong(ps: Params, ks: set<string>): Params {
    map k | k in ps && k in ks && SpecialName(k) == Plain :: ps[k]
  }

  predicate DistinctAmong(ks: set<string>) {
    forall a, b :: a in ks && b in ks && Fold(a) == Fold(b) ==> a == b
  }

  /** One top-level parameter: its name's policy, then its value's condition. */
  method OneKey(k: string, v: string, gucs: Params, optioned: seq<Setting>)
    returns (ok: bool, gucs': Params, optioned': seq<Setting>)
    ensures ok <==> KeyOk(k, v)
    ensures ok ==> gucs' == if SpecialName(k) == Plain then gucs[k := v] else gucs
    ensures ok ==> optioned' == if SpecialName(k) == OptionsKey then ParseOptions(v).value else optioned
  {
    ok, gucs', optioned' := true, gucs, optioned;
    match Policy(k)
    case Refuse => ok := false;
    case Collect => gucs' := gucs[k := v];
    case _ =>
      match SpecialName(k) {
        case ClientEncoding => ok := Utf8(v);
        case OptionsKey =>
          ok, optioned' := ParseOptionsGUCs(v);
        case _ =>
      }
  }

  /** What the first pass holds once it has been through `done`. */
  predicate TopDone(ps: Params, done: set<string>, seen: set<string>, gucs: Params, optioned: seq<Setting>) {
    && done <= ps.Keys && seen == Folded(done) && DistinctAmong(done)
    && (forall k :: k in done ==> KeyOk(k, ps[k]))
    && gucs == SettingsAmong(ps, done)
    && optioned == if "options" in done then OptionsOf(ps) else []
  }

  lemma TopOneMore(ps: Params, done: set<string>, seen: set<string>, gucs: Params, optioned: seq<Setting>, k: string)
    requires TopDone(ps, done, seen, gucs, optioned) && k in ps && k !in done && Fold(k) !in seen && KeyOk(k, ps[k])
    ensures TopDone(ps, done + {k}, seen + {Fold(k)},
                    if SpecialName(k) == Plain then gucs[k := ps[k]] else gucs,
                    if SpecialName(k) == OptionsKey then ParseOptions(ps[k]).value else optioned)
  {
    assert Folded(done + {k}) == Folded(done) + {Fold(k)};
    assert SettingsAmong(ps, done + {k}) ==
           if SpecialName(k) == Plain then SettingsAmong(ps, done)[k := ps[k]] else SettingsAmong(ps, done);
    OptionsKeyExactly(k);
  }

  lemma OptionsKeyExactly(k: string)
    ensures SpecialName(k) == OptionsKey <==> k == "options"
  {
    assert "options"[0] != '_';
  }

  lemma TopAllDone(ps: Params, done: set<string>, seen: set<string>, gucs: Params, optioned: seq<Setting>)
    requires TopDone(ps, done, seen, gucs, optioned) && done == ps.Keys
    ensures Distinct(ps) && KeysOk(ps)
    ensures seen == Folded(ps.Keys) && gucs == TopSettings(ps) && optioned == OptionsOf(ps)
  {
  }

  /** The first pass: every top-level parameter, in whatever order the map gives them. */
  method TopLevel(ps: Params) returns (ok: bool, seen: set<string>, gucs: Params, optioned: seq<Setting>)
    ensures ok <==> Distinct(ps) && KeysOk(ps)
    ensures ok ==> seen == Folded(ps.Keys) && gucs == TopSettings(ps) && optioned == OptionsOf(ps)
  {
    var done: set<string> := {};
    ok, seen, gucs, optioned := true, {}, map[], [];
    while ps.Keys - done != {}
      invariant ok && TopDone(ps, done, seen, gucs, optioned)
      decreases ps.Keys - done
    {
      var k :| k in ps.Keys - done;
      if Fold(k) in seen {
        return false, seen, gucs, optioned;
      }
      var gucs', optioned';
      ok, gucs', optioned' := OneKey(k, ps[k], gucs, optioned);
      if !ok {
        return;
      }
      TopOneMore(ps, done, seen, gucs, optioned, k);
      seen, gucs, optioned := seen + {Fold(k)}, gucs', optioned';
      done := done + {k};
    }
    assert done == ps.Keys;
    TopAllDone(ps, done, seen, gucs, optioned);
  }

  /** The map after options have had their say: an application_name given there is
      written where the top-level value lives. */
  function WithApplicationName(ps: Params, gs: seq<Setting>): Params {
    if gs == [] then ps
    else
      var rest, g := WithApplicationName(ps, gs[..|gs| - 1]), gs[|gs| - 1];
      if SpecialName(g.name) == ApplicationName then rest[APPLICATION_NAME := g.value] else rest
  }

  /** One setting named inside options. */
  method OneOption(g: Setting, gucs: Params, ps: Params) returns (ok: bool, gucs': Params, ps': Params)
    ensures ok <==> OptionOk(g)
    ensures ok ==> gucs' == if Collectable(g) then gucs[g.name := g.value] else gucs
    ensures ok ==> ps' == if SpecialName(g.name) == ApplicationName then ps[APPLICATION_NAME := g.value] else ps
  {
    ok, gucs', ps' := true, gucs, ps;
    match Policy(g.name)
    case Refuse => ok := false;
    case Accept =>
      match SpecialName(g.name) {
        case ApplicationName => ps' := ps[APPLICATION_NAME := g.value];
        case ClientEncoding => ok := Utf8(g.value);
        case _ => ok := false;
      }
    case _ => gucs' := gucs[g.name := g.value];
  }

  function FoldedNames(gs: seq<Setting>): set<string> { set g | g in gs :: Fold(g.name) }

  lemma OptionsOneMore(ps: Params, gs: seq<Setting>, g: Setting)
    requires OptionsFit(ps, gs) && OptionOk(g) && Fold(g.name) !in Folded(ps.Keys) + FoldedNames(gs)
    ensures OptionsFit(ps, gs + [g]) && FoldedNames(gs + [g]) == FoldedNames(gs) + {Fold(g.name)}
  {
    var hs := gs + [g];
    forall i, j | 0 <= i < j < |hs| ensures Fold(hs[i].name) != Fold(hs[j].name) {
      assert hs[i] in gs;
    }
    forall i, k | 0 <= i < |hs| && k in ps ensures Fold(hs[i].name) != Fold(k) {
      assert Fold(k) in Folded(ps.Keys);
    }
    assert forall x :: x in hs <==> x in gs || x == g;
  }

  lemma OptionsSeenTwice(ps: Params, gs: seq<Setting>, i: nat)
    requires i < |gs| && Fold(gs[i].name) in Folded(ps.Keys) + FoldedNames(gs[..i])
    ensures !OptionsFit(ps, gs)
  {
    if Fold(gs[i].name) in FoldedNames(gs[..i]) {
      var g :| g in gs[..i] && Fold(g.name) == Fold(gs[i].name);
      var j :| 0 <= j < i && gs[..i][j] == g;
      assert gs[j] == g;
    }
  }

  lemma OptionMapsOneMore(ps: Params, top: Params, gs: seq<Setting>, i: nat)
    requires i < |gs|
    ensures var g, was := gs[i], top + OptionSettings(gs[..i]);
            top + OptionSettings(gs[..i + 1]) == if Collectable(g) then was[g.name := g.value] else was
    ensures var g, was := gs[i], WithApplicationName(ps, gs[..i]);
            WithApplicationName(ps, gs[..i + 1]) ==
              if SpecialName(g.name) == ApplicationName then was[APPLICATION_NAME := g.value] else was
  {
    assert gs[..i + 1][..i] == gs[..i];
  }

  /** What the second pass holds after the first `i` settings. */
  predicate OptionsDone(ps: Params, top: Params, gs: seq<Setting>, i: nat, names: set<string>, gucs: Params,
                        qs: Params)
  {
    && i <= |gs| && OptionsFit(ps, gs[..i])
    && names == Folded(ps.Keys) + FoldedNames(gs[..i])
    && gucs == top + OptionSettings(gs[..i]) && qs == WithApplicationName(ps, gs[..i])
  }

  lemma OptionsStep(ps: Params, top: Params, gs: seq<Setting>, i: nat, names: set<string>, gucs: Params, qs: Params)
    requires OptionsDone(ps, top, gs, i, names, gucs, qs) && i < |gs| && Fold(gs[i].name) !in names && OptionOk(gs[i])
    ensures var g := gs[i];
            OptionsDone(ps, top, gs, i + 1, names + {Fold(g.name)},
                        if Collectable(g) then gucs[g.name := g.value] else gucs,
                        if SpecialName(g.name) == ApplicationName then qs[APPLICATION_NAME := g.value] else qs)
  {
    OptionsOneMore(ps, gs[..i], gs[i]);
    OptionMapsOneMore(ps, top, gs, i);
    assert gs[..i + 1] == gs[..i] + [gs[i]];
  }

  lemma OptionsEnd(ps: Params, top: Params, gs: seq<Setting>, names: set<string>, gucs: Params, qs: Params)
    requires OptionsDone(ps, top, gs, |gs|, names, gucs, qs)
    ensures OptionsFit(ps, gs) && gucs == top + OptionSettings(gs) && qs == WithApplicationName(ps, gs)
  {
    assert gs[..|gs|] == gs;
  }

  lemma OptionRefused(ps: Params, gs: seq<Setting>, i: nat)
    requires i < |gs| && !OptionOk(gs[i])
    ensures !OptionsFit(ps, gs)
  {
  }

  /** The second pass: every setting in options, against everything seen so far. */
  method OptionLevel(ps: Params, seen: set<string>, top: Params, gs: seq<Setting>)
    returns (ok: bool, gucs: Params, qs: Params)
    requires seen == Folded(ps.Keys)
    ensures ok <==> OptionsFit(ps, gs)
    ensures ok ==> gucs == top + OptionSettings(gs) && qs == WithApplicationName(ps, gs)
  {
    var i, names := 0, seen;
    ok, gucs, qs := true, top, ps;
    while i < |gs|
      invariant 0 <= i <= |gs| && ok && OptionsDone(ps, top, gs, i, names, gucs, qs)
    {
      if Fold(gs[i].name) in names {
        OptionsSeenTwice(ps, gs, i);
        return false, gucs, qs;
      }
      var gucs', qs';
      ok, gucs', qs' := OneOption(gs[i], gucs, qs);
      if !ok {
        OptionRefused(ps, gs, i);
        return;
      }
      OptionsStep(ps, top, gs, i, names, gucs, qs);
      names, gucs, qs := names + {Fold(gs[i].name)}, gucs', qs';
      i := i + 1;
    }
    OptionsEnd(ps, top, gs, names, gucs, qs);
  }

  // ---- where application_name ends up ----

  ghost predicate TopNames(ps: Params, v: string) {
    exists k :: k in ps && Fold(k) == APPLICATION_NAME && ps[k] == v
  }

  ghost predicate OptionNames(gs: seq<Setting>, v: string) {
    exists i :: 0 <= i < |gs| && Fold(gs[i].name) == APPLICATION_NAME && gs[i].value == v
  }

  /** The packet gives this value for application_name, at the top level or in options. */
  ghost predicate GivesName(ps: Params, gs: seq<Setting>, v: string) { TopNames(ps, v) || OptionNames(gs, v) }

  predicate NamedIn(m: Params, v: string) { APPLICATION_NAME in m && m[APPLICATION_NAME] == v }

  lemma {:induction false} NamedAfter(rs: Params, gs: seq<Setting>, i: nat)
    requires OptionsDistinct(gs) && i < |gs| && Fold(gs[i].name) == APPLICATION_NAME
    ensures NamedIn(WithApplicationName(rs, gs), gs[i].value)
    decreases |gs|
  {
    var m := |gs| - 1;
    SpecialThroughFold(gs[m].name);
    if i < m {
      assert Fold(gs[i].name) != Fold(gs[m].name);
      NamedAfter(rs, gs[..m], i);
    }
  }

  lemma {:induction false} UnnamedAfter(rs: Params, gs: seq<Setting>)
    requires forall i :: 0 <= i < |gs| ==> Fold(gs[i].name) != APPLICATION_NAME
    ensures WithApplicationName(rs, gs) == rs
    decreases |gs|
  {
    if gs != [] {
      SpecialThroughFold(gs[|gs| - 1].name);
      UnnamedAfter(rs, gs[..|gs| - 1]);
    }
  }

  lemma CanonicalName(ps: Params, rs: Params, v: string)
    requires Canonical(ps, rs) && Distinct(ps)
    ensures NamedIn(rs, v) <==> TopNames(ps, v)
  {
    CanonicalFolded();
    if k :| k in ps && Fold(k) == APPLICATION_NAME && ps[k] == v {
      assert CanonKey(k) == APPLICATION_NAME;
    }
    if NamedIn(rs, v) {
      var k :| k in ps && CanonKey(k) == APPLICATION_NAME;
      CanonKeyKeeps(k);
    }
  }

  /** After an accepted packet, the map holds under application_name exactly the value
      the packet gave, wherever it gave it. */
  lemma ApplicationNameKept(ps: Params, rs: Params, v: string)
    requires Accepts(ps) && Canonical(ps, rs)
    ensures NamedIn(WithApplicationName(rs, OptionsOf(ps)), v) <==> GivesName(ps, OptionsOf(ps), v)
  {
    var gs := OptionsOf(ps);
    CanonicalName(ps, rs, v);
    if i :| 0 <= i < |gs| && Fold(gs[i].name) == APPLICATION_NAME {
      NamedAfter(rs, gs, i);
      forall j | 0 <= j < |gs| && Fold(gs[j].name) == APPLICATION_NAME ensures gs[j].value == gs[i].value {
        NamedAfter(rs, gs, j);
      }
    } else {
      UnnamedAfter(rs, gs);
    }
  }

  /** The whole check: it accepts exactly the packets the policy accepts, and hands
      on exactly the settings they name. */
  method CheckStartupParams(params: Params) returns (ok: bool, gucs: Params, after: Params)
    ensures ok <==> Accepts(params)
    ensures ok ==> gucs == Collected(params)
    ensures ok ==> exists rs :: Canonical(params, rs) && after == WithApplicationName(rs, OptionsOf(params))
    ensures ok ==> forall v :: NamedIn(after, v) <==> GivesName(params, OptionsOf(params), v)
  {
    var rs;
    ok, rs := Canonicalize(params);
    gucs, after := map[], params;
    if !ok {
      return;
    }
    CanonicalJudged(params, rs);
    CanonicalSettings(params, rs);
    if !("user" in rs && !Blank(rs["user"])) || !("database" in rs && !Blank(rs["database"])) {
      return false, gucs, after;
    }
    var seen, top, optioned;
    ok, seen, top, optioned := TopLevel(rs);
    if !ok {
      return;
    }
    ok, gucs, after := OptionLevel(rs, seen, top, optioned);
    if !ok {
      return;
    }
    if |gucs| > STARTUP_GUC_LIMIT {
      return false, gucs, after;
    }
    forall v ensures NamedIn(after, v) <==> GivesName(params, OptionsOf(params), v) {
      ApplicationNameKept(params, rs, v);
    }
  }
}
