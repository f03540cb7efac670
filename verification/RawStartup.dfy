/** The scan of the raw startup packet for a key named twice, which runs before the
    pairs are folded into a map (frontdoor/params.go:422-466). A char stands for
    one byte; the packet is a version word and then key and value pairs, each
    ended by a zero byte, with an empty key last. */
module RawStartup {
  import opened StartupParams
  import opened WireText

  const NUL: char := 0 as char

  datatype Pair = Pair(key: string, value: string)

  /** Where the first zero byte is, or the length where there is none. */
  function IndexNul(b: string): (i: nat)
    ensures i <= |b| && (i < |b| ==> b[i] == NUL)
    ensures forall j :: 0 <= j < i ==> b[j] != NUL
  {
    if b == "" || b[0] == NUL then 0 else 1 + IndexNul(b[1..])
  }

  datatype Cut = Uncut | Cut(head: string, tail: string)

  /** The text before the first zero byte and the text after it. */
  function CutNul(b: string): (r: Cut)
    ensures r.Cut? ==> |r.tail| < |b|
  {
    var i := IndexNul(b);
    if i == |b| then Uncut else Cut(b[..i], b[i + 1..])
  }

  /** One key, and the block after its value; nothing where the block ends or is cut short. */
  function FirstKey(b: string): (r: Cut)
    ensures r.Cut? ==> |r.tail| < |b|
  {
    var key := CutNul(b);
    if key.Uncut? || key.head == "" then Uncut
    else
      var value := CutNul(key.tail);
      if value.Uncut? then Uncut else Cut(key.head, value.tail)
  }

  /** The keys of a parameter block, in order, up to its end or its first fault. */
  function RawKeys(b: string): seq<string>
    decreases |b|
  {
    var k := FirstKey(b);
    if k.Uncut? then [] else [k.head] + RawKeys(k.tail)
  }

  /** An earlier key is the same name, in this spelling or another. */
  ghost predicate Repeats(keys: seq<string>, j: nat) {
    j < |keys| && exists i :: 0 <= i < j && SameName(keys[i], keys[j])
  }

  function FoldedKeys(keys: seq<string>): set<string> { set k | k in keys :: Fold(k) }

  lemma FoldedOneMore(keys: seq<string>, k: string)
    ensures FoldedKeys(keys + [k]) == FoldedKeys(keys) + {Fold(k)}
  {
    assert forall x :: x in keys + [k] <==> x in keys || x == k;
  }

  lemma FoldedSeen(keys: seq<string>, j: nat)
    requires j < |keys|
    ensures Repeats(keys, j) <==> Fold(keys[j]) in FoldedKeys(keys[..j])
  {
    if Fold(keys[j]) in FoldedKeys(keys[..j]) {
      var k :| k in keys[..j] && Fold(k) == Fold(keys[j]);
      var i :| 0 <= i < j && keys[..j][i] == k;
      FoldIdentifies(keys[i], keys[j]);
    }
    if Repeats(keys, j) {
      var i :| 0 <= i < j && SameName(keys[i], keys[j]);
      FoldIdentifies(keys[i], keys[j]);
      assert keys[i] in keys[..j];
    }
  }

  ghost predicate NoneRepeats(keys: seq<string>, n: nat) {
    forall j :: 0 <= j < n ==> !Repeats(keys, j)
  }

  lemma DropOne(all: seq<string>, n: nat, key: string, rest: seq<string>)
    requires n <= |all| && all[n..] == [key] + rest
    ensures n < |all| && all[n] == key && all[n + 1..] == rest && all[..n + 1] == all[..n] + [key]
  {
    assert all[n..][0] == key && all[n..][1..] == rest;
    assert all[n + 1..] == all[n..][1..];
  }

  lemma OneMoreKeyRead(all: seq<string>, n: nat, key: string, rest: seq<string>)
    requires n <= |all| && all[n..] == [key] + rest
    ensures n < |all| && all[n] == key && all[n + 1..] == rest
    ensures FoldedKeys(all[..n + 1]) == FoldedKeys(all[..n]) + {Fold(key)}
    ensures Repeats(all, n) <==> Fold(key) in FoldedKeys(all[..n])
  {
    DropOne(all, n, key, rest);
    FoldedOneMore(all[..n], key);
    FoldedSeen(all, n);
  }

  ghost predicate KeysRead(all: seq<string>, n: nat, left: seq<string>, seen: set<string>) {
    n <= |all| && left == all[n..] && seen == FoldedKeys(all[..n]) && NoneRepeats(all, n)
  }

  lemma KeysReadStep(all: seq<string>, n: nat, key: string, rest: seq<string>, seen: set<string>)
    requires KeysRead(all, n, [key] + rest, seen)
    ensures n < |all| && all[n] == key && (Repeats(all, n) <==> Fold(key) in seen)
    ensures Fold(key) !in seen ==> KeysRead(all, n + 1, rest, seen + {Fold(key)})
  {
    OneMoreKeyRead(all, n, key, rest);
  }

  /** Reports the first key of a parameter block that repeats an earlier one, in
      any spelling, if there is one. */
  method DuplicateInBlock(block: string) returns (key: string, found: bool, ghost at: nat)
    ensures !found ==> NoneRepeats(RawKeys(block), |RawKeys(block)|)
    ensures found ==> Repeats(RawKeys(block), at) && RawKeys(block)[at] == key && NoneRepeats(RawKeys(block), at)
  {
    var b, seen := block, {};
    ghost var all := RawKeys(block);
    at := 0;
    while |b| > 0
      invariant KeysRead(all, at, RawKeys(b), seen)
      decreases |b|
    {
      var k := CutNul(b);
      if k.Uncut? || k.head == "" {
        return "", false, at;
      }
      key := k.head;
      var v := CutNul(k.tail);
      if v.Uncut? {
        return "", false, at;
      }
      KeysReadStep(all, at, key, RawKeys(v.tail), seen);
      if Fold(key) in seen {
        return key, true, at;
      }
      b, seen, at := v.tail, seen + {Fold(key)}, at + 1;
    }
    return "", false, at;
  }

  /** The whole packet: a version word, then the block. */
  method DuplicateStartupKey(raw: string) returns (key: string, found: bool)
    ensures found <==> |raw| >= 4 && exists j :: Repeats(RawKeys(raw[4..]), j)
    ensures found ==> key in RawKeys(raw[4..])
  {
    if |raw| < 4 {
      return "", false;
    }
    ghost var at;
    key, found, at := DuplicateInBlock(raw[4..]);
    if !found {
      assert forall j :: 0 <= j < |RawKeys(raw[4..])| ==> !Repeats(RawKeys(raw[4..]), j);
    }
  }

  // ---- packets as written ----

  predicate NulFree(s: string) { forall i :: 0 <= i < |s| ==> s[i] != NUL }

  predicate PairOk(p: Pair) { p.key != "" && NulFree(p.key) && NulFree(p.value) }

  function EncodePairs(ps: seq<Pair>): string {
    if ps == [] then [NUL] else (ps[0].key + [NUL]) + ((ps[0].value + [NUL]) + EncodePairs(ps[1..]))
  }

  function KeysOf(ps: seq<Pair>): (r: seq<string>)
    ensures |r| == |ps| && forall i :: 0 <= i < |ps| ==> r[i] == ps[i].key
  {
    seq(|ps|, i requires 0 <= i < |ps| => ps[i].key)
  }

  lemma CutNulAt(s: string, rest: string)
    requires NulFree(s)
    ensures CutNul((s + [NUL]) + rest) == Cut(s, rest)
  {
    var b := (s + [NUL]) + rest;
    assert b[|s|] == NUL;
    assert forall j :: 0 <= j < |s| ==> b[j] == s[j];
    assert IndexNul(b) == |s| && b[..|s|] == s && b[|s| + 1..] == rest;
  }

  lemma RawKeysOfPair(p: Pair, more: string)
    requires PairOk(p)
    ensures RawKeys((p.key + [NUL]) + ((p.value + [NUL]) + more)) == [p.key] + RawKeys(more)
  {
    CutNulAt(p.key, (p.value + [NUL]) + more);
    CutNulAt(p.value, more);
  }

  /** Every packet's keys are read back in order. */
  lemma {:induction false} RawKeysOfEncoded(ps: seq<Pair>)
    requires forall i :: 0 <= i < |ps| ==> PairOk(ps[i])
    ensures RawKeys(EncodePairs(ps)) == KeysOf(ps)
    decreases |ps|
  {
    if ps != [] {
      assert PairOk(ps[0]);
      RawKeysOfPair(ps[0], EncodePairs(ps[1..]));
      RawKeysOfEncoded(ps[1..]);
      FirstKeyOf(ps);
    }
  }

  /** The text of a pair, and of several. */
  function PairText(p: Pair): string { (p.key + [NUL]) + (p.value + [NUL]) }

  function PairsText(ps: seq<Pair>): string {
    if ps == [] then "" else PairText(ps[0]) + PairsText(ps[1..])
  }

  /** A whole pair with a key that is not empty comes first. */
  ghost predicate BeginsPair(b: string) { exists p: Pair, more: string :: PairOk(p) && b == PairText(p) + more }

  lemma PairFirst(b: string, p: Pair, more: string)
    requires PairOk(p) && b == PairText(p) + more
    ensures FirstKey(b) == Cut(p.key, more)
  {
    assert b == (p.key + [NUL]) + ((p.value + [NUL]) + more);
    CutNulAt(p.key, (p.value + [NUL]) + more);
    CutNulAt(p.value, more);
  }

  lemma FirstKeyPair(b: string) returns (p: Pair)
    requires FirstKey(b).Cut?
    ensures PairOk(p) && p.key == FirstKey(b).head && b == PairText(p) + FirstKey(b).tail
  {
    var key := CutNul(b);
    var value := CutNul(key.tail);
    p := Pair(key.head, value.head);
    assert b == (key.head + [NUL]) + key.tail;
    assert key.tail == (value.head + [NUL]) + value.tail;
  }

  /** For every block whatever: its keys are those of the pairs it begins with, as many as
      there are, and what follows them begins with no pair, be it the end, an empty key or
      one cut short. */
  lemma {:induction false} RawKeysExactly(b: string) returns (ps: seq<Pair>, rest: string)
    ensures b == PairsText(ps) + rest && !BeginsPair(rest) && RawKeys(b) == KeysOf(ps)
    ensures forall i :: 0 <= i < |ps| ==> PairOk(ps[i])
    decreases |b|
  {
    var k := FirstKey(b);
    if k.Uncut? {
      ps, rest := [], b;
      forall p: Pair, more: string | PairOk(p) ensures b != PairText(p) + more {
        if b == PairText(p) + more {
          PairFirst(b, p, more);
        }
      }
    } else {
      var p := FirstKeyPair(b);
      var qs;
      qs, rest := RawKeysExactly(k.tail);
      ps := [p] + qs;
      assert ps[1..] == qs;
      assert b == PairText(p) + (PairsText(qs) + rest) == (PairText(p) + PairsText(qs)) + rest;
      FirstKeyOf(ps);
    }
  }

  lemma FirstKeyOf(ps: seq<Pair>)
    requires ps != []
    ensures [ps[0].key] + KeysOf(ps[1..]) == KeysOf(ps)
  {
  }

  /** The map the pairs are decoded into: a later pair replaces an earlier one. */
  function Decoded(ps: seq<Pair>): Params {
    if ps == [] then map[] else Decoded(ps[..|ps| - 1])[ps[|ps| - 1].key := ps[|ps| - 1].value]
  }

  /** A packet in which no key repeats loses nothing to the map: every pair is there
      with its own value, and the map's names are distinct under folding. */
  lemma {:induction false} NothingLost(ps: seq<Pair>)
    requires forall j :: 0 <= j < |ps| ==> !Repeats(KeysOf(ps), j)
    ensures Distinct(Decoded(ps))
    ensures forall i :: 0 <= i < |ps| ==> ps[i].key in Decoded(ps) && Decoded(ps)[ps[i].key] == ps[i].value
    ensures forall k :: k in Decoded(ps) ==> exists i :: 0 <= i < |ps| && ps[i].key == k
    decreases |ps|
  {
    if ps != [] {
      var m := |ps| - 1;
      var init := ps[..m];
      assert KeysOf(init) == KeysOf(ps)[..m];
      forall j | 0 <= j < m ensures !Repeats(KeysOf(init), j) {
        assert !Repeats(KeysOf(ps), j);
        assert forall i :: 0 <= i <= j ==> KeysOf(init)[i] == KeysOf(ps)[i];
      }
      NothingLost(init);
      assert !Repeats(KeysOf(ps), m);
      forall k | k in Decoded(init) ensures Fold(k) != Fold(ps[m].key) && exists i :: 0 <= i < |ps| && ps[i].key == k {
        var i :| 0 <= i < |init| && init[i].key == k;
        assert ps[i].key == k && KeysOf(ps)[i] == k && KeysOf(ps)[m] == ps[m].key;
        FoldIdentifies(k, ps[m].key);
      }
      forall i | 0 <= i < |ps| ensures ps[i].key in Decoded(ps) && Decoded(ps)[ps[i].key] == ps[i].value {
        if i < m {
          assert init[i] == ps[i];
        }
      }
    }
  }
}
