/** The names on a certificate: those the operator asked for and the loopback set,
    split into names and addresses, checked against the issuing CA's constraints
    and cut down to what it can vouch for (frontdoor/certgen.go:145-172, 232-300
    and 529-597). */
module CertNames {
  import opened NameConstraints
  import opened Optional
  import opened StringSort
  import opened WireText

  /** What one host string names. */
  datatype Host = NoHost | DnsHost(name: string) | IpHost(ip: Address)

  function TrimBrackets(s: string): string {
    var t := if s != "" && s[0] == '[' then s[1..] else s;
    if t != "" && t[|t| - 1] == ']' then t[..|t| - 1] else t
  }

  /** The library's part: how it puts a string in lower case, reads an address and
      prints one. */
  datatype Library = Library(lower: Lower, parse: string -> Option<Address>, show: Address -> string)

  function Classify(lib: Library, h: string): Host {
    var t := Trim(h);
    if t == "" then NoHost
    else
      var u := TrimBrackets(t);
      if lib.parse(u).Some? then IpHost(lib.parse(u).value)
      else if Normalize(lib.lower, u) == "" then NoHost
      else DnsHost(Normalize(lib.lower, u))
  }

  /** Whitespace and the brackets of a bind string are not part of what is named: an
      address is an address in them, and a name is that name. */
  lemma DressIsOff(lib: Library, h: string, x: string)
    requires x != "" && Bare(x) && x[0] != '[' && x[|x| - 1] != ']'
    requires Between(h, x) || Between(h, "[" + x + "]")
    ensures lib.parse(x).Some? ==> Classify(lib, h) == IpHost(lib.parse(x).value)
    ensures lib.parse(x).None? ==>
              Classify(lib, h) == if Normalize(lib.lower, x) == "" then NoHost else DnsHost(Normalize(lib.lower, x))
  {
    if Between(h, x) {
      TrimTo(h, x);
    } else {
      BracketsBare(x);
      TrimTo(h, "[" + x + "]");
      BracketsOff(x);
    }
    ReadsAs(lib, h, x);
  }

  lemma ReadsAs(lib: Library, h: string, x: string)
    requires Trim(h) != "" && TrimBrackets(Trim(h)) == x
    ensures Classify(lib, h) ==
              if lib.parse(x).Some? then IpHost(lib.parse(x).value)
              else if Normalize(lib.lower, x) == "" then NoHost else DnsHost(Normalize(lib.lower, x))
  {
  }

  lemma BracketsOff(x: string)
    ensures TrimBrackets("[" + x + "]") == x
  {
    assert ("[" + x + "]")[1..] == x + "]" && (x + "]")[..|x|] == x;
  }

  lemma BracketsBare(x: string)
    ensures Bare("[" + x + "]")
  {
    var s := "[" + x;
    assert s[0] == '[';
    BareBefore(s, ']');
    assert "[" + x + "]" == s + [']'];
  }

  // ---- collecting ----

  datatype Names = Names(
    dns: seq<string>, ips: seq<Address>,
    seenDns: set<string>, seenIp: set<string>,
    requested: set<string>)

  function DnsSet(hs: seq<Host>): set<string> { set h | h in hs && h.DnsHost? :: h.name }

  function IpSet(hs: seq<Host>, show: Address -> string): set<string> { set h | h in hs && h.IpHost? :: show(h.ip) }

  function Add(ns: Names, host: Host, byOperator: bool, show: Address -> string): Names {
    match host
    case NoHost => ns
    case IpHost(ip) =>
      var key := show(ip);
      var ns := if byOperator then ns.(requested := ns.requested + {key}) else ns;
      if key in ns.seenIp then ns else ns.(seenIp := ns.seenIp + {key}, ips := ns.ips + [ip])
    case DnsHost(name) =>
      var ns := if byOperator then ns.(requested := ns.requested + {name}) else ns;
      if name in ns.seenDns then ns else ns.(seenDns := ns.seenDns + {name}, dns := ns.dns + [name])
  }

  /** Each name and each address is listed once. */
  ghost predicate Listed(ns: Names, show: Address -> string) {
    && (forall d :: d in ns.seenDns <==> d in ns.dns)
    && Distinct(ns.dns)
    && (forall ip :: ip in ns.ips ==> show(ip) in ns.seenIp)
    && (forall k :: k in ns.seenIp ==> exists ip :: ip in ns.ips && show(ip) == k)
    && (forall i, j :: 0 <= i < j < |ns.ips| ==> show(ns.ips[i]) != show(ns.ips[j]))
  }

  /** What has been collected from `hs`, the first `n` of them the operator's. */
  ghost predicate CollectedFrom(ns: Names, hs: seq<Host>, n: nat, show: Address -> string) {
    && n <= |hs| && Listed(ns, show)
    && ns.seenDns == DnsSet(hs) && ns.seenIp == IpSet(hs, show)
    && ns.requested == DnsSet(hs[..n]) + IpSet(hs[..n], show)
  }

  lemma SetsOneMore(hs: seq<Host>, h: Host, show: Address -> string)
    ensures DnsSet(hs + [h]) == DnsSet(hs) + if h.DnsHost? then {h.name} else {}
    ensures IpSet(hs + [h], show) == IpSet(hs, show) + if h.IpHost? then {show(h.ip)} else {}
  {
    assert forall x :: x in hs + [h] <==> x in hs || x == h;
  }

  lemma ListedOneMore(ns: Names, h: Host, byOperator: bool, show: Address -> string)
    requires Listed(ns, show)
    ensures Listed(Add(ns, h, byOperator, show), show)
  {
    var ms := Add(ns, h, byOperator, show);
    assert ns.dns <= ms.dns && ns.ips <= ms.ips;
    if ms.ips != ns.ips {
      var ip := h.ip;
      assert ip in ms.ips;
      assert forall x :: x in ns.ips ==> x in ms.ips;
    }
  }

  lemma CollectedOneMore(ns: Names, hs: seq<Host>, n: nat, h: Host, byOperator: bool, show: Address -> string)
    requires CollectedFrom(ns, hs, n, show) && (byOperator ==> n == |hs|)
    ensures CollectedFrom(Add(ns, h, byOperator, show), hs + [h], if byOperator then n + 1 else n, show)
  {
    ListedOneMore(ns, h, byOperator, show);
    SetsOneMore(hs, h, show);
    if byOperator {
      assert hs[..n] == hs && (hs + [h])[..n + 1] == hs + [h];
    } else {
      assert (hs + [h])[..n] == hs[..n];
    }
  }

  function ClassifyAll(lib: Library, hosts: seq<string>): (r: seq<Host>)
    ensures |r| == |hosts| && forall i :: 0 <= i < |hosts| ==> r[i] == Classify(lib, hosts[i])
  {
    seq(|hosts|, i requires 0 <= i < |hosts| => Classify(lib, hosts[i]))
  }

  function AddEach(ns: Names, hs: seq<Host>, byOperator: bool, show: Address -> string): Names {
    if hs == [] then ns else Add(AddEach(ns, hs[..|hs| - 1], byOperator, show), hs[|hs| - 1], byOperator, show)
  }

  lemma {:induction false} CollectedEach(ns: Names, before: seq<Host>, n: nat, hs: seq<Host>, byOperator: bool,
                                         show: Address -> string)
    requires CollectedFrom(ns, before, n, show) && (byOperator ==> n == |before|)
    ensures CollectedFrom(AddEach(ns, hs, byOperator, show), before + hs, if byOperator then n + |hs| else n, show)
    decreases |hs|
  {
    if hs == [] {
      assert before + hs == before;
    } else {
      var init, h := hs[..|hs| - 1], hs[|hs| - 1];
      CollectedEach(ns, before, n, init, byOperator, show);
      var m := if byOperator then n + |init| else n;
      CollectedOneMore(AddEach(ns, init, byOperator, show), before + init, m, h, byOperator, show);
      assert (before + init) + [h] == before + hs;
    }
  }

  /** The host at `k` is the first to name that address. */
  ghost predicate FirstMention(hs: seq<Host>, k: nat, ip: Address, show: Address -> string) {
    k < |hs| && hs[k] == IpHost(ip) && show(ip) !in IpSet(hs[..k], show)
  }

  /** The addresses in the order in which they were first named, at these places. */
  ghost predicate InMentionOrder(ips: seq<Address>, hs: seq<Host>, at: seq<nat>, show: Address -> string) {
    && |at| == |ips|
    && (forall i :: 0 <= i < |ips| ==> FirstMention(hs, at[i], ips[i], show))
    && (forall i, j :: 0 <= i < j < |at| ==> at[i] < at[j])
  }

  /** A mention stays the first as hosts are added behind it, and a new address is first. */
  lemma MentionStays(hs: seq<Host>, h: Host, k: nat, ip: Address, show: Address -> string)
    ensures FirstMention(hs, k, ip, show) ==> FirstMention(hs + [h], k, ip, show)
    ensures h == IpHost(ip) && show(ip) !in IpSet(hs, show) ==> FirstMention(hs + [h], |hs|, ip, show)
  {
    if k < |hs| {
      assert (hs + [h])[..k] == hs[..k];
    }
    assert (hs + [h])[..|hs|] == hs;
  }

  lemma MentionsStay(ips: seq<Address>, hs: seq<Host>, h: Host, at: seq<nat>, show: Address -> string)
    requires InMentionOrder(ips, hs, at, show)
    ensures InMentionOrder(ips, hs + [h], at, show)
  {
    forall i | 0 <= i < |ips| ensures FirstMention(hs + [h], at[i], ips[i], show) {
      MentionStays(hs, h, at[i], ips[i], show);
    }
  }

  lemma NewMention(ips: seq<Address>, hs: seq<Host>, ip: Address, at: seq<nat>, show: Address -> string)
    requires InMentionOrder(ips, hs, at, show) && show(ip) !in IpSet(hs, show)
    ensures InMentionOrder(ips + [ip], hs + [IpHost(ip)], at + [|hs|], show)
  {
    MentionsStay(ips, hs, IpHost(ip), at, show);
    MentionStays(hs, IpHost(ip), |hs|, ip, show);
    assert forall i :: 0 <= i < |at| ==> FirstMention(hs, at[i], ips[i], show);
  }

  lemma MentionOneMore(ns: Names, hs: seq<Host>, h: Host, byOperator: bool, show: Address -> string, at: seq<nat>)
    returns (at': seq<nat>)
    requires ns.seenIp == IpSet(hs, show) && InMentionOrder(ns.ips, hs, at, show)
    ensures InMentionOrder(Add(ns, h, byOperator, show).ips, hs + [h], at', show)
    ensures Add(ns, h, byOperator, show).seenIp == IpSet(hs + [h], show)
  {
    SetsOneMore(hs, h, show);
    if h.IpHost? && show(h.ip) !in ns.seenIp {
      at' := at + [|hs|];
      NewMention(ns.ips, hs, h.ip, at, show);
    } else {
      at' := at;
      MentionsStay(ns.ips, hs, h, at, show);
    }
  }

  lemma {:induction false} MentionEach(ns: Names, before: seq<Host>, hs: seq<Host>, byOperator: bool,
                                       show: Address -> string, at: seq<nat>) returns (at': seq<nat>)
    requires ns.seenIp == IpSet(before, show) && InMentionOrder(ns.ips, before, at, show)
    ensures InMentionOrder(AddEach(ns, hs, byOperator, show).ips, before + hs, at', show)
    ensures AddEach(ns, hs, byOperator, show).seenIp == IpSet(before + hs, show)
    decreases |hs|
  {
    if hs == [] {
      assert before + hs == before;
      at' := at;
    } else {
      var init, h := hs[..|hs| - 1], hs[|hs| - 1];
      at' := MentionEach(ns, before, init, byOperator, show, at);
      at' := MentionOneMore(AddEach(ns, init, byOperator, show), before + init, h, byOperator, show, at');
      assert (before + init) + [h] == before + hs;
    }
  }

  /** The addresses of a certificate stand in the order in which they were first named, the
      loopback set last, each as it was written first. */
  lemma AddressesInOrder(hs: seq<Host>, loopback: seq<Host>, show: Address -> string) returns (at: seq<nat>)
    ensures InMentionOrder(Named(hs, loopback, show).ips, hs + loopback, at, show)
  {
    var none := Names([], [], {}, {}, {});
    at := MentionEach(none, [], hs, true, show, []);
    assert [] + hs == hs;
    at := MentionEach(AddEach(none, hs, true, show), hs, loopback, false, show, at);
  }

  /** Adds a list of hosts, one by one. */
  method AddAll(ns: Names, hs: seq<Host>, byOperator: bool, show: Address -> string) returns (ms: Names)
    ensures ms == AddEach(ns, hs, byOperator, show)
  {
    ms := ns;
    var i := 0;
    while i < |hs|
      invariant 0 <= i <= |hs| && ms == AddEach(ns, hs[..i], byOperator, show)
    {
      assert hs[..i + 1][..i] == hs[..i];
      ms := Add(ms, hs[i], byOperator, show);
      i := i + 1;
    }
    assert hs[..i] == hs;
  }

  const LOOPBACK: seq<string> := ["localhost", "127.0.0.1", "::1"]

  predicate NamesNothing(hs: seq<Host>) { forall i :: 0 <= i < |hs| ==> hs[i] == NoHost }

  /** The operator's hosts, and then the loopback set, the names in order. */
  function Named(hs: seq<Host>, loopback: seq<Host>, show: Address -> string): Names {
    InOrder(AddEach(AddEach(Names([], [], {}, {}, {}), hs, true, show), loopback, false, show))
  }

  function InOrder(ns: Names): Names { ns.(dns := SortStrings(ns.dns)) }

  lemma InOrderCollected(ns: Names, hs: seq<Host>, n: nat, show: Address -> string)
    requires CollectedFrom(ns, hs, n, show)
    ensures CollectedFrom(InOrder(ns), hs, n, show)
  {
    SortKeeps(ns.dns);
  }

  lemma OperatorsNames(hs: seq<Host>, show: Address -> string)
    ensures var ns := AddEach(Names([], [], {}, {}, {}), hs, true, show);
            && CollectedFrom(ns, hs, |hs|, show)
            && (ns.dns == [] && ns.ips == [] <==> NamesNothing(hs))
  {
    var none := Names([], [], {}, {}, {});
    CollectedEach(none, [], 0, hs, true, show);
    assert [] + hs == hs;
    NothingNamed(AddEach(none, hs, true, show), hs, show);
  }

  lemma AllNames(hs: seq<Host>, loopback: seq<Host>, show: Address -> string)
    ensures CollectedFrom(Named(hs, loopback, show), hs + loopback, |hs|, show)
  {
    var ns := AddEach(Names([], [], {}, {}, {}), hs, true, show);
    OperatorsNames(hs, show);
    CollectedEach(ns, hs, |hs|, loopback, false, show);
    InOrderCollected(AddEach(ns, loopback, false, show), hs + loopback, |hs|, show);
  }

  /** Nothing when the operator named nothing; otherwise every name once, those the
      operator asked for marked as requested. */
  method SplitHostNames(hosts: seq<string>, lib: Library) returns (ok: bool, ns: Names)
    ensures !ok <==> NamesNothing(ClassifyAll(lib, hosts))
    ensures ok ==> ns == Named(ClassifyAll(lib, hosts), ClassifyAll(lib, LOOPBACK), lib.show)
    ensures ok ==> CollectedFrom(ns, ClassifyAll(lib, hosts) + ClassifyAll(lib, LOOPBACK), |hosts|, lib.show)
    ensures ok ==> Sorted(ns.dns)
    ensures ok ==> forall h :: h in ["localhost", "127.0.0.1", "::1"] ==>
                     Carries(Classify(lib, h), ns.dns, ns.ips, lib.show)
  {
    var hs := ClassifyAll(lib, hosts);
    ns := AddAll(Names([], [], {}, {}, {}), hs, true, lib.show);
    OperatorsNames(hs, lib.show);
    ok := !(ns.dns == [] && ns.ips == []);
    if ok {
      ns := AddAll(ns, ClassifyAll(lib, LOOPBACK), false, lib.show);
      AllNames(hs, ClassifyAll(lib, LOOPBACK), lib.show);
      SortedPermutation(ns.dns);
      ns := InOrder(ns);
      AllCarried(ns, hs + ClassifyAll(lib, LOOPBACK), |hs|, lib.show);
      assert LOOPBACK[0] == "localhost" && LOOPBACK[1] == "127.0.0.1" && LOOPBACK[2] == "::1";
      assert forall i :: 0 <= i < |LOOPBACK| ==>
        Classify(lib, LOOPBACK[i]) == (hs + ClassifyAll(lib, LOOPBACK))[|hs| + i];
    }
  }

  /** Every name collected is on the list. */
  lemma AllCarried(ns: Names, hs: seq<Host>, n: nat, show: Address -> string)
    requires CollectedFrom(ns, hs, n, show)
    ensures forall h :: h in hs ==> Carries(h, ns.dns, ns.ips, show)
  {
    forall h | h in hs ensures Carries(h, ns.dns, ns.ips, show) {
      assert h.DnsHost? ==> h.name in DnsSet(hs);
      assert h.IpHost? ==> show(h.ip) in IpSet(hs, show);
    }
  }

  lemma NamedSomething(ns: Names, hs: seq<Host>, show: Address -> string, i: nat)
    requires CollectedFrom(ns, hs, |hs|, show) && i < |hs| && hs[i] != NoHost
    ensures ns.dns != [] || ns.ips != []
  {
    assert hs[i] in hs;
    if hs[i].DnsHost? {
      assert hs[i].name in DnsSet(hs);
    } else {
      assert show(hs[i].ip) in IpSet(hs, show);
    }
  }

  lemma NamedByHost(ns: Names, hs: seq<Host>, show: Address -> string) returns (i: nat)
    requires CollectedFrom(ns, hs, |hs|, show) && (ns.dns != [] || ns.ips != [])
    ensures i < |hs| && hs[i] != NoHost
  {
    if ns.dns != [] {
      assert ns.dns[0] in DnsSet(hs);
      var h :| h in hs && h.DnsHost? && h.name == ns.dns[0];
      i :| 0 <= i < |hs| && hs[i] == h;
    } else {
      assert ns.ips[0] in ns.ips && show(ns.ips[0]) in IpSet(hs, show);
      var h :| h in hs && h.IpHost? && show(h.ip) == show(ns.ips[0]);
      i :| 0 <= i < |hs| && hs[i] == h;
    }
  }

  lemma NothingNamed(ns: Names, hs: seq<Host>, show: Address -> string)
    requires CollectedFrom(ns, hs, |hs|, show)
    ensures ns.dns == [] && ns.ips == [] <==> NamesNothing(hs)
  {
    if i :| 0 <= i < |hs| && hs[i] != NoHost {
      NamedSomething(ns, hs, show, i);
    }
    if ns.dns != [] || ns.ips != [] {
      var i := NamedByHost(ns, hs, show);
    }
  }

  // ---- what the issuer can vouch for ----

  /** A CA's name constraints; an empty list constrains nothing. */
  datatype Issuer = Issuer(dns: seq<string>, ips: seq<Range>)

  function VouchesDns(lower: Lower, ca: Issuer): string -> bool {
    h => ca.dns == [] || DnsVouched(lower, h, ca.dns)
  }

  function VouchesIp(ca: Issuer): Address -> bool { ip => ca.ips == [] || IpVouched(ip, ca.ips) }

  method MayVouchDns(lower: Lower, ca: Issuer, h: string) returns (ok: bool)
    ensures ok == VouchesDns(lower, ca)(h)
  {
    ok := DnsPermitted(lower, h, ca.dns);
    ok := |ca.dns| == 0 || ok;
  }

  method MayVouchIp(ca: Issuer, ip: Address) returns (ok: bool)
    ensures ok == VouchesIp(ca)(ip)
  {
    ok := IpPermitted(ip, ca.ips);
    ok := |ca.ips| == 0 || ok;
  }

  /** Every requested name is one the issuer can vouch for. */
  predicate RequestedVouched(lower: Lower, ca: Issuer, ns: Names, show: Address -> string) {
    && (forall i :: 0 <= i < |ns.dns| && ns.dns[i] in ns.requested ==> VouchesDns(lower, ca)(ns.dns[i]))
    && (forall i :: 0 <= i < |ns.ips| && show(ns.ips[i]) in ns.requested ==> VouchesIp(ca)(ns.ips[i]))
  }

  method ConstraintsPermit(lower: Lower, ca: Issuer, ns: Names, show: Address -> string) returns (ok: bool)
    ensures ok <==> RequestedVouched(lower, ca, ns, show)
  {
    var badNames, badIps := 0, 0;
    for i := 0 to |ns.dns|
      invariant badNames == 0 <==>
                forall j :: 0 <= j < i && ns.dns[j] in ns.requested ==> VouchesDns(lower, ca)(ns.dns[j])
    {
      var vouched := MayVouchDns(lower, ca, ns.dns[i]);
      if ns.dns[i] in ns.requested && !vouched {
        badNames := badNames + 1;
      }
    }
    for i := 0 to |ns.ips|
      invariant badIps == 0 <==> forall j :: 0 <= j < i && show(ns.ips[j]) in ns.requested ==> VouchesIp(ca)(ns.ips[j])
    {
      var vouched := MayVouchIp(ca, ns.ips[i]);
      if show(ns.ips[i]) in ns.requested && !vouched {
        badIps := badIps + 1;
      }
    }
    ok := badNames == 0 && badIps == 0;
  }

  /** The entries that pass, in order. */
  function Keep<T>(xs: seq<T>, f: T -> bool): seq<T> {
    if xs == [] then []
    else Keep(xs[..|xs| - 1], f) + if f(xs[|xs| - 1]) then [xs[|xs| - 1]] else []
  }

  function Not<T>(f: T -> bool): T -> bool { x => !f(x) }

  lemma {:induction false} KeepExactly<T>(xs: seq<T>, f: T -> bool, x: T)
    ensures x in Keep(xs, f) <==> x in xs && f(x)
    decreases |xs|
  {
    if xs != [] {
      var n := |xs| - 1;
      KeepExactly(xs[..n], f, x);
      assert xs == xs[..n] + [xs[n]];
    }
  }

  lemma OneMoreOf<T>(xs: seq<T>, x: T)
    ensures multiset(xs + [x]) == multiset(xs) + multiset{x}
  {
  }

  lemma {:induction false} KeepPartition<T>(xs: seq<T>, f: T -> bool)
    ensures multiset(Keep(xs, f)) + multiset(Keep(xs, Not(f))) == multiset(xs)
    decreases |xs|
  {
    if xs != [] {
      var n := |xs| - 1;
      var init, x := xs[..n], xs[n];
      KeepPartition(init, f);
      assert xs == init + [x];
      OneMoreOf(init, x);
      if f(x) {
        OneMoreOf(Keep(init, f), x);
      } else {
        OneMoreOf(Keep(init, Not(f)), x);
      }
    }
  }

  datatype Cut<T> = Cut(kept: seq<T>, dropped: seq<T>)

  function Shown(ips: seq<Address>, show: Address -> string): (r: seq<string>)
    ensures |r| == |ips| && forall i :: 0 <= i < |ips| ==> r[i] == show(ips[i])
  {
    seq(|ips|, i requires 0 <= i < |ips| => show(ips[i]))
  }

  method CutNames(lower: Lower, ca: Issuer, dns: seq<string>) returns (cut: Cut<string>)
    ensures cut == Cut(Keep(dns, VouchesDns(lower, ca)), Keep(dns, Not(VouchesDns(lower, ca))))
  {
    var kept, dropped, i := [], [], 0;
    while i < |dns|
      invariant 0 <= i <= |dns|
      invariant kept == Keep(dns[..i], VouchesDns(lower, ca)) && dropped == Keep(dns[..i], Not(VouchesDns(lower, ca)))
    {
      var vouched := MayVouchDns(lower, ca, dns[i]);
      assert dns[..i + 1][..i] == dns[..i];
      kept, dropped := if vouched then kept + [dns[i]] else kept, if vouched then dropped else dropped + [dns[i]];
      i := i + 1;
    }
    assert dns[..i] == dns;
    cut := Cut(kept, dropped);
  }

  method CutAddresses(ca: Issuer, ips: seq<Address>) returns (cut: Cut<Address>)
    ensures cut == Cut(Keep(ips, VouchesIp(ca)), Keep(ips, Not(VouchesIp(ca))))
  {
    var kept, dropped, i := [], [], 0;
    while i < |ips|
      invariant 0 <= i <= |ips|
      invariant kept == Keep(ips[..i], VouchesIp(ca)) && dropped == Keep(ips[..i], Not(VouchesIp(ca)))
    {
      var vouched := MayVouchIp(ca, ips[i]);
      assert ips[..i + 1][..i] == ips[..i];
      kept, dropped := if vouched then kept + [ips[i]] else kept, if vouched then dropped else dropped + [ips[i]];
      i := i + 1;
    }
    assert ips[..i] == ips;
    cut := Cut(kept, dropped);
  }

  /** Keeps what can be vouched for and reports what was dropped, in order. */
  method DropUnvouchable(lower: Lower, ca: Issuer, dns: seq<string>, ips: seq<Address>, show: Address -> string)
    returns (names: Cut<string>, addresses: Cut<Address>, report: seq<string>)
    ensures names == Cut(Keep(dns, VouchesDns(lower, ca)), Keep(dns, Not(VouchesDns(lower, ca))))
    ensures addresses == Cut(Keep(ips, VouchesIp(ca)), Keep(ips, Not(VouchesIp(ca))))
    ensures Sorted(report) && multiset(report) == multiset(names.dropped + Shown(addresses.dropped, show))
  {
    names := CutNames(lower, ca, dns);
    addresses := CutAddresses(ca, ips);
    report := SortStrings(names.dropped + Shown(addresses.dropped, show));
    SortedPermutation(names.dropped + Shown(addresses.dropped, show));
  }

  // ---- the leaf certificate ----

  /** What a leaf signed by `ca` carries of `ns`. */
  ghost predicate LeafOk(lower: Lower, ca: Issuer, ns: Names, names: Cut<string>, addresses: Cut<Address>,
                         show: Address -> string)
  {
    && multiset(names.kept) + multiset(names.dropped) == multiset(ns.dns)
    && multiset(addresses.kept) + multiset(addresses.dropped) == multiset(ns.ips)
    && (forall h :: h in names.kept ==> VouchesDns(lower, ca)(h))
    && (forall ip :: ip in addresses.kept ==> VouchesIp(ca)(ip))
    && (forall h :: h in names.dropped ==> h !in ns.requested)
    && (forall ip :: ip in addresses.dropped ==> show(ip) !in ns.requested)
  }

  lemma DroppedUnrequested(lower: Lower, ca: Issuer, ns: Names, show: Address -> string)
    requires RequestedVouched(lower, ca, ns, show)
    ensures LeafOk(lower, ca, ns, Cut(Keep(ns.dns, VouchesDns(lower, ca)), Keep(ns.dns, Not(VouchesDns(lower, ca)))),
                   Cut(Keep(ns.ips, VouchesIp(ca)), Keep(ns.ips, Not(VouchesIp(ca)))), show)
  {
    KeepPartition(ns.dns, VouchesDns(lower, ca));
    KeepPartition(ns.ips, VouchesIp(ca));
    KeepSplits(ns.dns, VouchesDns(lower, ca));
    KeepSplits(ns.ips, VouchesIp(ca));
  }

  lemma KeepSplits<T(!new)>(xs: seq<T>, f: T -> bool)
    ensures forall x :: x in Keep(xs, f) ==> x in xs && f(x)
    ensures forall x :: x in Keep(xs, Not(f)) ==> x in xs && !f(x)
  {
    forall x | x in Keep(xs, f) ensures x in xs && f(x) {
      KeepExactly(xs, f, x);
    }
    forall x | x in Keep(xs, Not(f)) ensures x in xs && !f(x) {
      KeepExactly(xs, Not(f), x);
    }
  }

  /** The operator asked for it and the certificate carries it. */
  ghost predicate Carries(host: Host, dns: seq<string>, ips: seq<Address>, show: Address -> string) {
    match host
    case NoHost => true
    case DnsHost(name) => name in dns
    case IpHost(ip) => exists x :: x in ips && show(x) == show(ip)
  }

  lemma RequestedCarried(lower: Lower, ca: Issuer, ns: Names, hs: seq<Host>, n: nat,
                         names: Cut<string>, addresses: Cut<Address>, show: Address -> string, i: nat)
    requires CollectedFrom(ns, hs, n, show) && LeafOk(lower, ca, ns, names, addresses, show) && i < n
    ensures Carries(hs[i], names.kept, addresses.kept, show)
  {
    var h := hs[i];
    assert h in hs && h == hs[..n][i];
    match h
    case NoHost =>
    case DnsHost(name) =>
      assert name in DnsSet(hs) && name in DnsSet(hs[..n]);
      assert name in multiset(ns.dns);
    case IpHost(ip) =>
      assert show(ip) in IpSet(hs, show) && show(ip) in IpSet(hs[..n], show);
      var x :| x in ns.ips && show(x) == show(ip);
      assert x in multiset(ns.ips);
  }

  /** An address counts as asked for when a host named it, and also when a host
      that is no address normalizes to its printed form. */
  lemma RequestedExactly(hs: seq<Host>, loopback: seq<Host>, show: Address -> string, ip: Address)
    ensures show(ip) in Named(hs, loopback, show).requested <==>
            exists h :: h in hs && ((h.IpHost? && show(h.ip) == show(ip)) || h == DnsHost(show(ip)))
  {
    AllNames(hs, loopback, show);
    assert (hs + loopback)[..|hs|] == hs;
  }

  /** Such a host: an address written with the root label is read as a name, and the
      loopback address, which nobody asked for, counts as asked for. */
  lemma DottedAddressWitness(lib: Library, loopback: seq<Host>, ip: Address)
    requires lib.parse("127.0.0.1.") == None && lib.lower("127.0.0.1") == "127.0.0.1" == lib.show(ip)
    ensures ClassifyAll(lib, ["127.0.0.1."]) == [DnsHost("127.0.0.1")]
    ensures lib.show(ip) in Named(ClassifyAll(lib, ["127.0.0.1."]), loopback, lib.show).requested
  {
    var h := "127.0.0.1.";
    assert SpaceWidth(h) == 0 && TrimLeft(h) == h;
    assert h[9] == '.' && h[9..] == "." && h[8..] == "1." && h[7..] == ".1.";
    assert !EndsInSpace(h, 1) && !EndsInSpace(h, 2) && !EndsInSpace(h, 3) && Trim(h) == h;
    assert TrimBrackets(h) == h && h[..9] == "127.0.0.1";
    assert TrimTrailingDot(h) == "127.0.0.1" && Normalize(lib.lower, h) == "127.0.0.1";
    var hs := ClassifyAll(lib, [h]);
    assert hs == [DnsHost("127.0.0.1")] && hs[0] in hs;
    RequestedExactly(hs, loopback, lib.show, ip);
  }

  /** Issuing from an existing CA: it is refused exactly when the operator named
      nothing or the CA cannot vouch for something asked for; otherwise every name
      asked for is on the leaf, everything on it is vouched for, and what was
      dropped was only ever a convenience. */
  method LeafNames(hosts: seq<string>, ca: Issuer, lib: Library)
    returns (ok: bool, names: Cut<string>, addresses: Cut<Address>)
    ensures var hs := ClassifyAll(lib, hosts);
            var ns := Named(hs, ClassifyAll(lib, LOOPBACK), lib.show);
            && (ok <==> !NamesNothing(hs) && RequestedVouched(lib.lower, ca, ns, lib.show))
            && (ok ==> LeafOk(lib.lower, ca, ns, names, addresses, lib.show))
            && (ok ==> forall i :: 0 <= i < |hosts| ==> Carries(hs[i], names.kept, addresses.kept, lib.show))
  {
    names, addresses := Cut([], []), Cut([], []);
    var ns, report;
    ok, ns := SplitHostNames(hosts, lib);
    if !ok {
      return;
    }
    ok := ConstraintsPermit(lib.lower, ca, ns, lib.show);
    if !ok {
      return;
    }
    names, addresses, report := DropUnvouchable(lib.lower, ca, ns.dns, ns.ips, lib.show);
    DroppedUnrequested(lib.lower, ca, ns, lib.show);
    ghost var hs := ClassifyAll(lib, hosts) + ClassifyAll(lib, LOOPBACK);
    forall i | 0 <= i < |hosts| ensures Carries(ClassifyAll(lib, hosts)[i], names.kept, addresses.kept, lib.show) {
      RequestedCarried(lib.lower, ca, ns, hs, |hosts|, names, addresses, lib.show, i);
      assert hs[i] == ClassifyAll(lib, hosts)[i];
    }
  }

  // ---- a CA made for its own names ----

  /** An unconstrained kind of name is vouched for whatever it is; a constrained one only
      by a constraint. */
  lemma VouchesExactly(lower: Lower, ca: Issuer, h: string, ip: Address)
    ensures VouchesDns(lower, ca)(h) <==>
              |ca.dns| == 0 || exists i :: 0 <= i < |ca.dns| && InSubtree(lower, h, ca.dns[i])
    ensures VouchesIp(ca)(ip) <==> |ca.ips| == 0 || exists i :: 0 <= i < |ca.ips| && Contains(ca.ips[i], ip)
  {
    if i :| 0 <= i < |ca.dns| && InSubtree(lower, h, ca.dns[i]) {
      assert SubtreeOf(lower, h)(ca.dns[i]);
    }
    if i :| 0 <= i < |ca.ips| && Contains(ca.ips[i], ip) {
      assert Containing(ip)(ca.ips[i]);
    }
  }

  /** The constraints an issuer is created with: the names themselves, and a range for each
      address. */
  ghost predicate MadeFor(ca: Issuer, ns: Names) {
    ca.dns == ns.dns && forall ip :: IpVouched(ip, ca.ips) <==> ip in ns.ips
  }

  /** A name in the form normalizing leaves it in, and not written as a subtree. */
  predicate Settled(lower: Lower, d: string) { d != "" && d[0] != '.' && Normalize(lower, d) == d }

  predicate AllSettled(lower: Lower, ds: seq<string>) { forall i :: 0 <= i < |ds| ==> Settled(lower, ds[i]) }

  lemma SettledSubtree(lower: Lower, name: string, d: string)
    requires Settled(lower, d)
    ensures InSubtree(lower, name, d) <==> IsSuffix(Labels(d), Labels(Normalize(lower, name)))
    ensures InSubtree(lower, d, d)
  {
    assert TrimLeadingDot(d) == d;
    assert IsSuffix(Labels(d), Labels(d));
  }

  /** A new CA vouches for exactly the names it was made for, what lies below them, and
      its own addresses. */
  lemma NewCaVouchesExactly(lower: Lower, ca: Issuer, ns: Names, h: string, ip: Address)
    requires MadeFor(ca, ns) && AllSettled(lower, ns.dns) && ns.dns != [] && ns.ips != []
    ensures VouchesDns(lower, ca)(h) <==>
              exists i :: 0 <= i < |ns.dns| && IsSuffix(Labels(ns.dns[i]), Labels(Normalize(lower, h)))
    ensures VouchesIp(ca)(ip) <==> ip in ns.ips
  {
    VouchesExactly(lower, ca, h, ip);
    forall i | 0 <= i < |ns.dns|
      ensures InSubtree(lower, h, ns.dns[i]) <==> IsSuffix(Labels(ns.dns[i]), Labels(Normalize(lower, h)))
    {
      SettledSubtree(lower, h, ns.dns[i]);
    }
    assert ns.ips[0] in ns.ips && IpVouched(ns.ips[0], ca.ips);
  }

  lemma {:induction false} KeepsAll<T(!new)>(xs: seq<T>, f: T -> bool)
    requires forall i :: 0 <= i < |xs| ==> f(xs[i])
    ensures Keep(xs, f) == xs && Keep(xs, Not(f)) == []
    decreases |xs|
  {
    if xs != [] {
      KeepsAll(xs[..|xs| - 1], f);
    }
  }

  lemma OwnNamesVouched(lower: Lower, ca: Issuer, ns: Names)
    requires MadeFor(ca, ns) && AllSettled(lower, ns.dns)
    ensures forall i :: 0 <= i < |ns.dns| ==> VouchesDns(lower, ca)(ns.dns[i])
    ensures forall i :: 0 <= i < |ns.ips| ==> VouchesIp(ca)(ns.ips[i])
  {
    forall i | 0 <= i < |ns.dns| ensures VouchesDns(lower, ca)(ns.dns[i]) {
      SettledSubtree(lower, ns.dns[i], ns.dns[i]);
      assert SubtreeOf(lower, ns.dns[i])(ca.dns[i]);
    }
    forall i | 0 <= i < |ns.ips| ensures VouchesIp(ca)(ns.ips[i]) {
      assert ns.ips[i] in ns.ips;
    }
  }

  /** Issuing again from a CA for the names it was made for costs nothing: no name asked
      for is refused, and no convenience is dropped. */
  lemma ReissueKeepsEverything(lower: Lower, ca: Issuer, ns: Names, show: Address -> string)
    requires MadeFor(ca, ns) && AllSettled(lower, ns.dns)
    ensures RequestedVouched(lower, ca, ns, show)
    ensures Keep(ns.dns, VouchesDns(lower, ca)) == ns.dns && Keep(ns.dns, Not(VouchesDns(lower, ca))) == []
    ensures Keep(ns.ips, VouchesIp(ca)) == ns.ips && Keep(ns.ips, Not(VouchesIp(ca))) == []
  {
    OwnNamesVouched(lower, ca, ns);
    KeepsAll(ns.dns, VouchesDns(lower, ca));
    KeepsAll(ns.ips, VouchesIp(ca));
  }
}
