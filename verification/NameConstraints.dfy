/** Which names an issuing CA may vouch for, and what happens to the others: a name
    the operator asked for is refused, a convenience is dropped
    (frontdoor/certgen.go:232-343 and 529-628). Parsing and printing an address
    are parameters. */
module NameConstraints {
  import opened Concatenation
  import opened WireText

  // ---- labels ----

  /** The labels of a name, leftmost first. */
  function Labels(s: string): (r: seq<string>)
    ensures |r| > 0
  {
    if s == "" then [""]
    else
      ByteBefore(s[0], Labels(s[1..]))
  }

  function ByteBefore(c: char, ls: seq<string>): (r: seq<string>)
    requires |ls| > 0
    ensures |r| > 0
  {
    if c == '.' then [""] + ls else [[c] + ls[0]] + ls[1..]
  }

  lemma ByteBeforeMore(c: char, xs: seq<string>, ys: seq<string>)
    requires |xs| > 0
    ensures ByteBefore(c, xs + ys) == ByteBefore(c, xs) + ys
  {
    assert (xs + ys)[1..] == xs[1..] + ys;
  }

  lemma JoinByteBefore(c: char, ls: seq<string>)
    requires |ls| > 0
    ensures Join(ByteBefore(c, ls)) == [c] + Join(ls)
  {
    var r := ByteBefore(c, ls);
    if c == '.' {
      JoinDot(ls);
    } else if |ls| > 1 {
      assert r[0] == [c] + ls[0] && r[1..] == ls[1..];
      Assoc([c], ls[0], "." + Join(ls[1..]));
    }
  }

  lemma JoinDot(ls: seq<string>)
    requires |ls| > 0
    ensures Join([""] + ls) == ['.'] + Join(ls)
  {
    assert ([""] + ls)[1..] == ls;
    assert "" + ("." + Join(ls)) == ['.'] + Join(ls);
  }

  function Join(ls: seq<string>): string
    requires |ls| > 0
  {
    if |ls| == 1 then ls[0] else ls[0] + ("." + Join(ls[1..]))
  }

  predicate IsSuffix<T(==)>(a: seq<T>, b: seq<T>) { |a| <= |b| && b[|b| - |a|..] == a }

  lemma {:induction false} JoinLabels(s: string)
    ensures Join(Labels(s)) == s
    decreases |s|
  {
    if s != "" {
      JoinLabels(s[1..]);
      JoinByteBefore(s[0], Labels(s[1..]));
      assert [s[0]] + s[1..] == s;
    }
  }

  lemma {:induction false} LabelsAround(a: string, b: string)
    ensures Labels(a + "." + b) == Labels(a) + Labels(b)
    decreases |a|
  {
    var s := a + "." + b;
    if a == "" {
      assert s[0] == '.' && s[1..] == b;
    } else {
      assert s[0] == a[0] && s[1..] == a[1..] + "." + b;
      LabelsAround(a[1..], b);
      ByteBeforeMore(a[0], Labels(a[1..]), Labels(b));
    }
  }

  lemma {:induction false} JoinAround(xs: seq<string>, ys: seq<string>)
    requires |xs| > 0 && |ys| > 0
    ensures Join(xs + ys) == Join(xs) + "." + Join(ys)
    decreases |xs|
  {
    assert (xs + ys)[1..] == xs[1..] + ys;
    if |xs| == 1 {
      assert xs[1..] + ys == ys;
      assert xs[0] + ("." + Join(ys)) == xs[0] + "." + Join(ys);
    } else {
      JoinAround(xs[1..], ys);
      assert xs[0] + ("." + (Join(xs[1..]) + "." + Join(ys))) == (xs[0] + ("." + Join(xs[1..]))) + "." + Join(ys);
    }
  }

  /** The comparison the code makes: the constraint itself, or anything ending in a
      dot and the constraint. */
  predicate Below(name: string, p: string) {
    name == p || IsSuffix("." + p, name)
  }

  lemma BelowHasLabels(name: string, p: string)
    requires IsSuffix("." + p, name)
    ensures IsSuffix(Labels(p), Labels(name))
  {
    var a := name[..|name| - |p| - 1];
    assert name == a + ("." + p);
    Assoc(a, ".", p);
    LabelsAround(a, p);
  }

  lemma LabelsHaveBelow(name: string, p: string)
    requires IsSuffix(Labels(p), Labels(name))
    ensures Below(name, p)
  {
    var xs := Labels(name)[..|Labels(name)| - |Labels(p)|];
    assert Labels(name) == xs + Labels(p);
    JoinLabels(name);
    JoinLabels(p);
    if xs == [] {
      assert xs + Labels(p) == Labels(p);
    } else {
      JoinAround(xs, Labels(p));
      Assoc(Join(xs), ".", p);
    }
  }

  /** Textual matching with a leading dot is label matching, for all names: the
      subtree rule of section 4.2.1.10 of RFC 5280. */
  lemma BelowIsLabelSuffix(name: string, p: string)
    ensures Below(name, p) <==> IsSuffix(Labels(p), Labels(name))
  {
    if name != p && Below(name, p) {
      BelowHasLabels(name, p);
    }
    if IsSuffix(Labels(p), Labels(name)) {
      LabelsHaveBelow(name, p);
    }
  }

  // ---- names ----

  function TrimTrailingDot(s: string): string { if s != "" && s[|s| - 1] == '.' then s[..|s| - 1] else s }

  function TrimLeadingDot(s: string): string { if s != "" && s[0] == '.' then s[1..] else s }

  /** How the library puts a string in lower case. */
  type Lower = string -> string

  /** Trimmed, without its root label, and in lower case. */
  function Normalize(lower: Lower, h: string): string { lower(TrimTrailingDot(Trim(h))) }

  /** A closing byte of plain text is no part of a wider space. */
  lemma BareBefore(x: string, c: char)
    requires x != "" && SpaceWidth(x) == 0 && 0x20 < c as int < 0x80
    ensures Bare(x + [c])
  {
    var s := x + [c];
    assert forall i :: 0 <= i < |x| ==> s[i] == x[i];
    assert s[|s| - 1..] == [c];
    assert |s| >= 2 ==> s[|s| - 2..][1] == c;
    assert |s| >= 3 ==> s[|s| - 3..][2] == c;
  }

  /** However a name is dressed, in whitespace and with or without its root label, it is
      put in lower case bare. */
  lemma NormalizeExactly(lower: Lower, h: string, x: string)
    requires x != "" && Bare(x) && x[|x| - 1] != '.'
    requires Between(h, x) || Between(h, x + ".")
    ensures Normalize(lower, h) == lower(x)
  {
    if Between(h, x) {
      TrimTo(h, x);
    } else {
      var rooted := x + ".";
      BareBefore(x, '.');
      assert rooted == x + ['.'];
      TrimTo(h, rooted);
      RootOff(x);
    }
  }

  lemma RootOff(x: string)
    ensures TrimTrailingDot(x + ".") == x
  {
  }

  /** Nor does it matter that a constraint is written with a leading dot. */
  lemma LeadingDotOff(lower: Lower, name: string, c: string)
    requires c == "" || c[0] != '.'
    ensures InSubtree(lower, name, "." + c) <==> InSubtree(lower, name, c)
  {
    assert ("." + c)[1..] == c;
  }

  /** RFC 5280 section 4.2.1.10: zero or more labels added on the left of a constraint. */
  predicate InSubtree(lower: Lower, name: string, c: string) {
    var p := Normalize(lower, TrimLeadingDot(c));
    p != "" && IsSuffix(Labels(p), Labels(Normalize(lower, name)))
  }

  /** The same question as the code asks it. */
  predicate Covers(lower: Lower, c: string, n: string) {
    var p := Normalize(lower, TrimLeadingDot(c));
    p != "" && Below(n, p)
  }

  lemma CoversIsSubtree(lower: Lower, c: string, name: string)
    ensures Covers(lower, c, Normalize(lower, name)) <==> InSubtree(lower, name, c)
  {
    BelowIsLabelSuffix(Normalize(lower, name), Normalize(lower, TrimLeadingDot(c)));
  }

  predicate Any<T>(xs: seq<T>, f: T -> bool) { exists i :: 0 <= i < |xs| && f(xs[i]) }

  lemma AnyOneMore<T>(xs: seq<T>, f: T -> bool, i: nat)
    requires i < |xs|
    ensures Any(xs[..i + 1], f) <==> Any(xs[..i], f) || f(xs[i])
  {
    if Any(xs[..i + 1], f) && !f(xs[i]) {
      var j :| 0 <= j < i + 1 && f(xs[..i + 1][j]);
      assert xs[..i][j] == xs[j];
    }
    if Any(xs[..i], f) {
      var j :| 0 <= j < i && f(xs[..i][j]);
      assert xs[..i + 1][j] == xs[j];
    }
    assert xs[..i + 1][i] == xs[i];
  }

  lemma AnySoon<T>(xs: seq<T>, f: T -> bool, i: nat)
    requires i <= |xs| && Any(xs[..i], f)
    ensures Any(xs, f)
  {
    var j :| 0 <= j < i && f(xs[..i][j]);
    assert xs[j] == xs[..i][j];
  }

  function SubtreeOf(lower: Lower, name: string): string -> bool { c => InSubtree(lower, name, c) }

  /** Some constraint covers the name. */
  predicate DnsVouched(lower: Lower, name: string, cs: seq<string>) { Any(cs, SubtreeOf(lower, name)) }

  method OnePermits(lower: Lower, c: string, name: string) returns (ok: bool)
    ensures ok == SubtreeOf(lower, name)(c)
  {
    CoversIsSubtree(lower, c, name);
    ok := Covers(lower, c, Normalize(lower, name));
  }

  method DnsPermitted(lower: Lower, name: string, permitted: seq<string>) returns (ok: bool)
    ensures ok <==> DnsVouched(lower, name, permitted)
  {
    ok := false;
    var i := 0;
    while i < |permitted| && !ok
      invariant 0 <= i <= |permitted|
      invariant ok <==> Any(permitted[..i], SubtreeOf(lower, name))
    {
      ok := OnePermits(lower, permitted[i], name);
      AnyOneMore(permitted, SubtreeOf(lower, name), i);
      i := i + 1;
    }
    if ok {
      AnySoon(permitted, SubtreeOf(lower, name), i);
    } else {
      assert permitted[..i] == permitted;
    }
  }

  // ---- addresses ----

  datatype Address = V4(n: nat) | V6(n: nat)

  /** The addresses that share their first `ones` bits with `ip`. */
  datatype Range = Range(ip: Address, ones: nat)

  function Pow2(n: nat): (r: nat)
    ensures r > 0
  {
    if n == 0 then 1 else 2 * Pow2(n - 1)
  }

  function Width(ip: Address): nat { if ip.V4? then 32 else 128 }

  predicate Contains(r: Range, ip: Address) {
    && (r.ip.V4? <==> ip.V4?) && r.ones <= Width(ip)
    && ip.n / Pow2(Width(ip) - r.ones) == r.ip.n / Pow2(Width(ip) - r.ones)
  }

  /** The i-th binary digit, the lowest first. */
  predicate Bit(n: nat, i: nat) { n / Pow2(i) % 2 == 1 }

  lemma Halves(n: nat, p: nat)
    requires p > 0
    ensures n / (2 * p) == n / p / 2
  {
    var q, r := n / p, n % p;
    var h, b := q / 2, q % 2;
    assert n == p * q + r;
    assert p * q == p * (2 * h) + p * b;
    assert p * (2 * h) == (2 * p) * h;
    var m := p * b + r;
    assert 0 <= m < 2 * p by {
      assert b == 0 || b == 1;
      assert p * b <= p;
    }
    Quotient(n, 2 * p, h, m);
  }

  lemma Quotient(n: nat, d: nat, q: nat, r: nat)
    requires r < d && n == d * q + r
    ensures n / d == q
  {
    var e := n / d - q;
    assert 0 - d < d * e < d by {
      assert d * e == r - n % d;
    }
    assert e >= 1 ==> d * e >= d;
    assert e <= -1 ==> d * e <= 0 - d;
  }

  /** Numbers agree above their k lowest digits exactly when they have those digits in common. */
  lemma {:induction false} HighBits(a: nat, b: nat, k: nat, width: nat)
    requires k <= width && a < Pow2(width) && b < Pow2(width)
    ensures a / Pow2(k) == b / Pow2(k) <==> forall i :: k <= i < width ==> Bit(a, i) == Bit(b, i)
    decreases width - k
  {
    if k == width {
      Quotient(a, Pow2(k), 0, a);
      Quotient(b, Pow2(k), 0, b);
    } else {
      HighBits(a, b, k + 1, width);
      Halves(a, Pow2(k));
      Halves(b, Pow2(k));
      var x, y := a / Pow2(k), b / Pow2(k);
      assert x == y <==> x / 2 == y / 2 && x % 2 == y % 2;
      assert Bit(a, k) == Bit(b, k) <==> x % 2 == y % 2;
    }
  }

  predicate IsAddress(ip: Address) { ip.n < Pow2(Width(ip)) }

  /** A range holds exactly the addresses of its family whose first `ones` bits are its own. */
  lemma ContainsExactly(r: Range, ip: Address)
    requires IsAddress(r.ip) && IsAddress(ip) && r.ones <= Width(r.ip)
    ensures Contains(r, ip) <==>
              && (r.ip.V4? <==> ip.V4?)
              && forall i :: Width(ip) - r.ones <= i < Width(ip) ==> Bit(ip.n, i) == Bit(r.ip.n, i)
  {
    if r.ip.V4? <==> ip.V4? {
      HighBits(ip.n, r.ip.n, Width(ip) - r.ones, Width(ip));
    }
  }

  function Containing(ip: Address): Range -> bool { r => Contains(r, ip) }

  predicate IpVouched(ip: Address, rs: seq<Range>) { Any(rs, Containing(ip)) }

  method IpPermitted(ip: Address, ranges: seq<Range>) returns (ok: bool)
    ensures ok <==> IpVouched(ip, ranges)
  {
    var i := 0;
    while i < |ranges|
      invariant 0 <= i <= |ranges|
      invariant forall j :: 0 <= j < i ==> !Contains(ranges[j], ip)
    {
      if Contains(ranges[i], ip) {
        assert Containing(ip)(ranges[i]);
        return true;
      }
      i := i + 1;
    }
    return false;
  }

  method PermittedRanges(ips: seq<Address>) returns (out: seq<Range>)
    ensures forall ip :: IpVouched(ip, out) <==> ip in ips
  {
    out := [];
    var i := 0;
    while i < |ips|
      invariant 0 <= i <= |ips| && |out| == i
      invariant forall j :: 0 <= j < i ==> out[j] == Range(ips[j], Width(ips[j]))
    {
      out := out + [Range(ips[i], Width(ips[i]))];
      i := i + 1;
    }
    forall ip ensures IpVouched(ip, out) <==> ip in ips {
      SingleHosts(ips, out, ip);
    }
  }

  lemma SingleHosts(ips: seq<Address>, out: seq<Range>, ip: Address)
    requires |out| == |ips| && forall j :: 0 <= j < |ips| ==> out[j] == Range(ips[j], Width(ips[j]))
    ensures IpVouched(ip, out) <==> ip in ips
  {
    assert Pow2(0) == 1;
    if ip in ips {
      var j :| 0 <= j < |ips| && ips[j] == ip;
      assert Containing(ip)(out[j]);
    }
    if IpVouched(ip, out) {
      var j :| 0 <= j < |out| && Containing(ip)(out[j]);
      assert ips[j] == ip;
    }
  }
}
