/** The `options` startup parameter: libpq's field splitting and the three ways it
    spells a setting (frontdoor/params.go:469-580). A char stands for one byte. */
module StartupOptions {
  import opened Concatenation
  import opened Optional
  import opened WireText

  datatype Setting = Setting(name: string, value: string)

  /** libpq's whitespace: space, tab, newline, carriage return, vertical tab, form feed. */
  predicate IsSpace(c: char) {
    c == ' ' || c == '\t' || c == '\n' || c == '\r' || c as int == 11 || c as int == 12
  }

  /** It is all of Unicode's whitespace that one byte can be. */
  lemma SpaceExactly(c: char)
    ensures IsSpace(c) <==> (c as int) < 0x80 && WhiteSpace(c as int)
  {
  }

  // ---- fields ----

  /** The rest of one field, and what follows it; nothing when a backslash ends the text. */
  function Word(v: string): (r: Option<(string, string)>)
    ensures r.Some? ==> |r.value.1| <= |v| && (r.value.1 != "" ==> IsSpace(r.value.1[0]))
    ensures r.Some? && v != "" && !IsSpace(v[0]) ==> |r.value.1| < |v| && r.value.0 != ""
    decreases |v|
  {
    if v == "" || IsSpace(v[0]) then Some(("", v))
    else if v[0] == '\\' then
      if |v| == 1 then None
      else
        var w := Word(v[2..]);
        if w.None? then None else Some(([v[1]] + w.value.0, w.value.1))
    else
      var w := Word(v[1..]);
      if w.None? then None else Some(([v[0]] + w.value.0, w.value.1))
  }

  /** The fields of an options text, or nothing where it is cut short. */
  function Fields(v: string): Option<seq<string>>
    decreases |v|
  {
    if v == "" then Some([])
    else if IsSpace(v[0]) then Fields(v[1..])
    else
      var w := Word(v);
      if w.None? then None else Prepend([w.value.0], Fields(w.value.1))
  }

  function Prepend(first: seq<string>, rest: Option<seq<string>>): Option<seq<string>> {
    if rest.None? then None else Some(first + rest.value)
  }

  lemma PrependTwice(a: seq<string>, b: seq<string>, r: Option<seq<string>>)
    ensures Prepend(a, Prepend(b, r)) == Prepend(a + b, r) && Prepend([], r) == r
  {
    if r.Some? {
      assert a + (b + r.value) == a + b + r.value;
      assert [] + r.value == r.value;
    }
  }

  /** What the text's fields are, given what the scan holds and what it has left. */
  ghost function Unscanned(out: seq<string>, cur: string, started: bool, rest: string): Option<seq<string>> {
    if !started then Prepend(out, Fields(rest))
    else
      var w := Word(rest);
      if w.None? then None else Prepend(out + [cur + w.value.0], Fields(w.value.1))
  }

  ghost function Pending(out: seq<string>, cur: string, esc: bool, started: bool, rest: string): Option<seq<string>> {
    if !esc then Unscanned(out, cur, started, rest)
    else if rest == "" then None
    else Unscanned(out, cur + [rest[0]], true, rest[1..])
  }

  /** Inside a field, or at the start of one, the scan reads one word. */
  lemma ReadsWord(out: seq<string>, cur: string, started: bool, v: string)
    requires (!started ==> cur == "") && v != "" && !IsSpace(v[0])
    ensures Unscanned(out, cur, started, v) == Unscanned(out, cur, true, v)
  {
    var w := Word(v);
    if !started && w.Some? {
      PrependTwice(out, [w.value.0], Fields(w.value.1));
      assert cur + w.value.0 == w.value.0;
    }
  }

  lemma WordByte(cur: string, c: char, rest: string)
    requires c != '\\' && !IsSpace(c)
    ensures Word([c] + rest).None? <==> Word(rest).None?
    ensures Word(rest).Some? ==> Word([c] + rest).value.1 == Word(rest).value.1
    ensures Word(rest).Some? ==> Word([c] + rest).value.0 == [c] + Word(rest).value.0
    ensures Word(rest).Some? ==> cur + Word([c] + rest).value.0 == cur + [c] + Word(rest).value.0
  {
    assert ([c] + rest)[1..] == rest;
  }

  lemma WordEscape(cur: string, c: char, rest: string)
    ensures Word(['\\', c] + rest).None? <==> Word(rest).None?
    ensures Word(rest).Some? ==> Word(['\\', c] + rest).value.1 == Word(rest).value.1
    ensures Word(rest).Some? ==> Word(['\\', c] + rest).value.0 == [c] + Word(rest).value.0
    ensures Word(rest).Some? ==> cur + Word(['\\', c] + rest).value.0 == cur + [c] + Word(rest).value.0
  {
    assert (['\\', c] + rest)[2..] == rest;
  }

  lemma ScanByte(out: seq<string>, cur: string, started: bool, c: char, rest: string)
    requires !started ==> cur == ""
    ensures c == '\\' ==> Unscanned(out, cur, started, [c] + rest) == Pending(out, cur, true, true, rest)
    ensures c != '\\' && !IsSpace(c) ==>
              Unscanned(out, cur, started, [c] + rest) == Unscanned(out, cur + [c], true, rest)
    ensures IsSpace(c) ==>
              var done := if started then out + [cur] else out;
              Unscanned(out, cur, started, [c] + rest) == Unscanned(done, "", false, rest)
  {
    var v := [c] + rest;
    assert v[1..] == rest;
    if IsSpace(c) {
      assert cur + "" == cur;
    } else {
      ReadsWord(out, cur, started, v);
      if c != '\\' {
        WordByte(cur, c, rest);
      } else if rest != "" {
        assert v == ['\\', rest[0]] + rest[1..];
        WordEscape(cur, rest[0], rest[1..]);
      }
    }
  }

  /** Splits on unescaped whitespace, a backslash keeping the byte after it. */
  method OptionsFields(v: string) returns (ok: bool, out: seq<string>)
    ensures ok <==> Fields(v).Some?
    ensures ok ==> out == Fields(v).value
  {
    var cur, esc, started := "", false, false;
    out := [];
    var i := 0;
    assert v[0..] == v;
    PrependTwice([], [], Fields(v));
    while i < |v|
      invariant 0 <= i <= |v|
      invariant (!started ==> cur == "") && (esc ==> started)
      invariant Fields(v) == Pending(out, cur, esc, started, v[i..])
    {
      var c := v[i];
      assert v[i..] == [c] + v[i + 1..];
      if !esc {
        ScanByte(out, cur, started, c, v[i + 1..]);
      }
      if esc {
        cur := cur + [c];
        esc := false;
        started := true;
      } else if c == '\\' {
        esc := true;
        started := true;
      } else if IsSpace(c) {
        if started {
          out := out + [cur];
          cur := "";
          started := false;
        }
      } else {
        cur := cur + [c];
        started := true;
      }
      i := i + 1;
    }
    assert v[i..] == "";
    if esc {
      return false, [];
    }
    if started {
      assert cur + "" == cur;
      out := out + [cur];
    }
    ok := true;
  }

  // ---- writing fields ----

  /** A field as libpq writes it: whitespace and backslashes behind a backslash. */
  function Escape(f: string): string {
    if f == "" then "" else EscapeByte(f[0]) + Escape(f[1..])
  }

  function EscapeByte(c: char): string {
    if IsSpace(c) || c == '\\' then ['\\', c] else [c]
  }

  /** A field and the whitespace before it. */
  datatype Piece = Piece(gap: string, field: string)

  predicate AllSpace(s: string) { forall i :: 0 <= i < |s| ==> IsSpace(s[i]) }

  function Text(ps: seq<Piece>, tail: string): string {
    if ps == [] then tail else ps[0].gap + (Escape(ps[0].field) + Text(ps[1..], tail))
  }

  function FieldsOf(ps: seq<Piece>): seq<string> {
    if ps == [] then [] else [ps[0].field] + FieldsOf(ps[1..])
  }

  /** Fields are not empty, and whitespace stands between every two of them. */
  predicate Separated(ps: seq<Piece>) {
    forall i :: 0 <= i < |ps| ==> AllSpace(ps[i].gap) && ps[i].field != "" && (i > 0 ==> ps[i].gap != "")
  }

  lemma WordOfByte(c: char, f: string, after: string, rest: string)
    requires Word(after) == Some((f, rest))
    ensures Word(EscapeByte(c) + after) == Some(([c] + f, rest))
  {
    if IsSpace(c) || c == '\\' {
      WordEscape("", c, after);
    } else {
      WordByte("", c, after);
    }
  }

  lemma {:induction false} WordOfEscaped(f: string, rest: string)
    requires rest != "" ==> IsSpace(rest[0])
    ensures Word(Escape(f) + rest) == Some((f, rest))
    decreases |f|
  {
    if f == "" {
      assert Escape(f) + rest == rest;
    } else {
      var after := Escape(f[1..]) + rest;
      WordOfEscaped(f[1..], rest);
      WordOfByte(f[0], f[1..], after, rest);
      Assoc(EscapeByte(f[0]), Escape(f[1..]), rest);
      assert [f[0]] + f[1..] == f;
    }
  }

  lemma {:induction false} SkipSpace(gap: string, v: string)
    requires AllSpace(gap)
    ensures Fields(gap + v) == Fields(v)
    decreases |gap|
  {
    if gap == "" {
      assert gap + v == v;
    } else {
      assert (gap + v)[1..] == gap[1..] + v;
      SkipSpace(gap[1..], v);
    }
  }

  lemma EscapeStarts(f: string)
    requires f != ""
    ensures Escape(f) != "" && !IsSpace(Escape(f)[0])
  {
  }

  /** Every list of non-empty fields, over any bytes at all, reads back as written. */
  lemma {:induction false} FieldsOfText(ps: seq<Piece>, tail: string)
    requires Separated(ps) && AllSpace(tail)
    ensures Fields(Text(ps, tail)) == Some(FieldsOf(ps))
    decreases |ps|
  {
    if ps == [] {
      SkipSpace(tail, "");
      assert tail + "" == tail;
    } else {
      var p, rest := ps[0], Text(ps[1..], tail);
      assert AllSpace(p.gap);
      if ps[1..] != [] {
        assert ps[1..][0] == ps[1] && AllSpace(ps[1].gap) && ps[1].gap != "";
      }
      FieldsOfText(ps[1..], tail);
      SkipSpace(p.gap, Escape(p.field) + rest);
      EscapeStarts(p.field);
      WordOfEscaped(p.field, rest);
    }
  }

  // ---- settings ----

  predicate HasEquals(s: string) { '=' in s }

  /** The text before the first '=' and the text after it. */
  function Cut(body: string): (r: Setting)
    requires HasEquals(body)
    ensures body == r.name + "=" + r.value && !HasEquals(r.name)
  {
    if body[0] == '=' then
      assert body == "" + "=" + body[1..];
      Setting("", body[1..])
    else
      assert HasEquals(body[1..]);
      var r := Cut(body[1..]);
      assert body == [body[0]] + r.name + "=" + r.value;
      Setting([body[0]] + r.name, r.value)
  }

  predicate NameOk(name: string) { !HasEquals(name) && !Blank(name) }

  predicate BodyOk(body: string) { HasEquals(body) && !Blank(Cut(body).name) }

  predicate StartsWith(f: string, a: char, b: char) { |f| >= 2 && f[0] == a && f[1] == b }

  function PrependSetting(g: Setting, rest: Option<seq<Setting>>): Option<seq<Setting>> {
    if rest.None? then None else Some([g] + rest.value)
  }

  /** The settings a list of fields names, or nothing where a field is not one of
      the three spellings. */
  function Settings(fs: seq<string>): Option<seq<Setting>>
    decreases |fs|
  {
    if fs == [] then Some([])
    else if fs[0] == ['-', 'c'] then
      if |fs| == 1 || !BodyOk(fs[1]) then None else PrependSetting(Cut(fs[1]), Settings(fs[2..]))
    else if StartsWith(fs[0], '-', 'c') || StartsWith(fs[0], '-', '-') then
      if BodyOk(fs[0][2..]) then PrependSetting(Cut(fs[0][2..]), Settings(fs[1..])) else None
    else None
  }

  function ParseOptions(v: string): Option<seq<Setting>> {
    var fs := Fields(v);
    if fs.None? then None else Settings(fs.value)
  }

  lemma SettingsFrom(fs: seq<string>, i: nat)
    requires i < |fs|
    ensures Settings(fs[i..]) ==
            if fs[i] == ['-', 'c'] then
              if i + 1 == |fs| || !BodyOk(fs[i + 1]) then None
              else PrependSetting(Cut(fs[i + 1]), Settings(fs[i + 2..]))
            else if (StartsWith(fs[i], '-', 'c') || StartsWith(fs[i], '-', '-')) && BodyOk(fs[i][2..]) then
              PrependSetting(Cut(fs[i][2..]), Settings(fs[i + 1..]))
            else None
  {
    var r := fs[i..];
    assert r[1..] == fs[i + 1..] && (i + 1 < |fs| ==> r[1] == fs[i + 1] && r[2..] == fs[i + 2..]);
  }

  /** Reads an options text whole, or refuses it. */
  method ParseOptionsGUCs(v: string) returns (ok: bool, out: seq<Setting>)
    ensures ok <==> ParseOptions(v).Some?
    ensures ok ==> out == ParseOptions(v).value
  {
    var fields;
    ok, fields := OptionsFields(v);
    if !ok {
      return false, [];
    }
    out := [];
    var i := 0;
    assert fields[0..] == fields;
    JoinedOne([], Setting("", ""), Settings(fields));
    while i < |fields|
      invariant 0 <= i <= |fields|
      invariant ParseOptions(v) == Joined(out, Settings(fields[i..]))
    {
      var f := fields[i];
      var body;
      SettingsFrom(fields, i);
      if f == ['-', 'c'] {
        if i + 1 >= |fields| {
          return false, [];
        }
        i := i + 1;
        body := fields[i];
      } else if StartsWith(f, '-', 'c') {
        body := f[2..];
      } else if StartsWith(f, '-', '-') {
        body := f[2..];
      } else {
        return false, [];
      }
      if !HasEquals(body) || Blank(Cut(body).name) {
        return false, [];
      }
      JoinedOne(out, Cut(body), Settings(fields[i + 1..]));
      out := out + [Cut(body)];
      i := i + 1;
    }
    assert out + [] == out;
  }

  ghost function Joined(out: seq<Setting>, rest: Option<seq<Setting>>): Option<seq<Setting>> {
    if rest.None? then None else Some(out + rest.value)
  }

  lemma JoinedOne(out: seq<Setting>, g: Setting, rest: Option<seq<Setting>>)
    ensures Joined(out, PrependSetting(g, rest)) == Joined(out + [g], rest) && Joined([], rest) == rest
  {
    if rest.Some? {
      assert [] + rest.value == rest.value;
      assert out + ([g] + rest.value) == out + [g] + rest.value;
    }
  }

  // ---- the three spellings ----

  datatype Spelling = Separate | Attached | Long

  function Spell(g: Setting, how: Spelling): seq<string> {
    var body := g.name + "=" + g.value;
    match how
    case Separate => [['-', 'c'], body]
    case Attached => [['-', 'c'] + body]
    case Long => [['-', '-'] + body]
  }

  function SpellAll(gs: seq<Setting>, how: seq<Spelling>): seq<string>
    requires |gs| == |how|
  {
    if gs == [] then [] else Spell(gs[0], how[0]) + SpellAll(gs[1..], how[1..])
  }

  predicate NamesOk(gs: seq<Setting>) { forall i :: 0 <= i < |gs| ==> NameOk(gs[i].name) }

  lemma {:induction false} CutOf(name: string, value: string)
    requires !HasEquals(name)
    ensures HasEquals(name + "=" + value) && Cut(name + "=" + value) == Setting(name, value)
    decreases |name|
  {
    var body := name + "=" + value;
    assert body[|name|] == '=';
    if name == "" {
      assert body[1..] == value;
    } else {
      assert body[1..] == name[1..] + "=" + value;
      CutOf(name[1..], value);
      assert [name[0]] + name[1..] == name;
    }
  }

  lemma SettingsSeparate(g: Setting, body: string, rest: seq<string>)
    requires HasEquals(body) && Cut(body) == g && !Blank(g.name)
    ensures Settings([['-', 'c'], body] + rest) == PrependSetting(g, Settings(rest))
  {
    var fs := [['-', 'c'], body] + rest;
    assert fs[0] == ['-', 'c'] && fs[1] == body && fs[2..] == rest;
  }

  lemma SettingsPrefixed(g: Setting, c: char, body: string, rest: seq<string>)
    requires HasEquals(body) && Cut(body) == g && !Blank(g.name) && (c == 'c' || c == '-')
    ensures Settings([['-', c] + body] + rest) == PrependSetting(g, Settings(rest))
  {
    var f, fs := ['-', c] + body, [['-', c] + body] + rest;
    assert f[0] == '-' && f[1] == c && f[2..] == body;
    assert body != [];
    assert |f| > 2 && fs[0] == f && fs[1..] == rest;
  }

  lemma SettingsStep(g: Setting, one: Spelling, rest: seq<string>)
    requires NameOk(g.name)
    ensures Settings(Spell(g, one) + rest) == PrependSetting(g, Settings(rest))
  {
    var body := g.name + "=" + g.value;
    CutOf(g.name, g.value);
    match one
    case Separate => SettingsSeparate(g, body, rest);
    case Attached => SettingsPrefixed(g, 'c', body, rest);
    case Long => SettingsPrefixed(g, '-', body, rest);
  }

  lemma {:induction false} SettingsOfSpelled(gs: seq<Setting>, how: seq<Spelling>)
    requires |gs| == |how| && NamesOk(gs)
    ensures Settings(SpellAll(gs, how)) == Some(gs)
    decreases |gs|
  {
    if gs != [] {
      SettingsOfSpelled(gs[1..], how[1..]);
      assert NameOk(gs[0].name);
      SettingsStep(gs[0], how[0], SpellAll(gs[1..], how[1..]));
      assert [gs[0]] + gs[1..] == gs;
    }
  }

  lemma FirstSpelling(fs: seq<string>) returns (g: Setting, one: Spelling, n: nat)
    requires fs != [] && Settings(fs).Some?
    ensures 1 <= n <= |fs| && Settings(fs[n..]).Some? && Settings(fs).value == [g] + Settings(fs[n..]).value
    ensures NameOk(g.name) && fs == Spell(g, one) + fs[n..]
  {
    if fs[0] == ['-', 'c'] {
      g, one, n := Cut(fs[1]), Separate, 2;
      assert Spell(g, one) == [fs[0], fs[1]];
    } else {
      var body := fs[0][2..];
      g, one, n := Cut(body), if StartsWith(fs[0], '-', 'c') then Attached else Long, 1;
      SpellPrefixed(fs[0], g, one);
    }
  }

  lemma SpellPrefixed(f: string, g: Setting, one: Spelling)
    requires |f| >= 2 && f[2..] == g.name + "=" + g.value && f[0] == '-'
    requires (one == Attached && f[1] == 'c') || (one == Long && f[1] == '-')
    ensures Spell(g, one) == [f]
  {
    assert f == [f[0], f[1]] + f[2..];
  }

  /** What the parser accepts is exactly what can be spelled. */
  lemma {:induction false} SettingsAreSpelled(fs: seq<string>) returns (how: seq<Spelling>)
    requires Settings(fs).Some?
    ensures |how| == |Settings(fs).value| && NamesOk(Settings(fs).value) && fs == SpellAll(Settings(fs).value, how)
    decreases |fs|
  {
    if fs == [] {
      how := [];
    } else {
      var g, one, n := FirstSpelling(fs);
      var more := SettingsAreSpelled(fs[n..]);
      how := [one] + more;
      SpellOneMore(g, one, Settings(fs[n..]).value, more);
    }
  }

  lemma SpellOneMore(g: Setting, one: Spelling, gs: seq<Setting>, how: seq<Spelling>)
    requires |gs| == |how|
    ensures SpellAll([g] + gs, [one] + how) == Spell(g, one) + SpellAll(gs, how)
  {
    assert ([g] + gs)[1..] == gs && ([one] + how)[1..] == how;
  }

  // ---- the round trip ----

  /** Settings with non-blank names free of '=' and any values, each spelled any of
      the three ways, with any whitespace around them, read back as they were. */
  lemma OptionsRoundTrip(gs: seq<Setting>, how: seq<Spelling>, ps: seq<Piece>, tail: string)
    requires |gs| == |how| && NamesOk(gs)
    requires Separated(ps) && AllSpace(tail) && FieldsOf(ps) == SpellAll(gs, how)
    ensures ParseOptions(Text(ps, tail)) == Some(gs)
  {
    FieldsOfText(ps, tail);
    SettingsOfSpelled(gs, how);
  }

  /** An options text is understood if and only if its fields spell a list of
      settings, and then it names exactly those. */
  lemma ParseOptionsExactly(v: string, gs: seq<Setting>)
    ensures ParseOptions(v) == Some(gs) <==>
            NamesOk(gs) && exists how :: Spells(v, gs, how)
  {
    if ParseOptions(v) == Some(gs) {
      var how := SettingsAreSpelled(Fields(v).value);
      assert Spells(v, gs, how);
    }
    if NamesOk(gs) && exists how :: Spells(v, gs, how) {
      var how :| Spells(v, gs, how);
      SettingsOfSpelled(gs, how);
    }
  }

  ghost predicate Spells(v: string, gs: seq<Setting>, how: seq<Spelling>) {
    |gs| == |how| && Fields(v) == Some(SpellAll(gs, how))
  }
}
