/**
 Commitment replay: reveals are parsed, put in canonical order, committed one by
 one and folded; a batch is accepted only when the fold equals the on-chain
 accumulator. The hash is a parameter.
 */
module Reveals {
  import opened Arithmetic
  import opened FixedPoint
  import opened Sequences

  type Hash = seq<int> -> int

  ghost predicate Injective(h: Hash) {
    forall x, y :: h(x) == h(y) ==> x == y
  }

  ghost predicate NeverZero(h: Hash) {
    forall x :: h(x) != 0
  }

  /** A raw reveal, as received. */
  datatype Payload = Payload(
    epochId: int, orderNonce: string, side: bool, amountIn: string, limitPrice: string,
    submittedAtBlock: int, owner: string, pathLen: Option<nat>, path: Option<seq<string>>)

  /** The two string readers a reveal goes through; None is a throw. */
  datatype Codec = Codec(big: string -> Option<int>, field: string -> Option<int>)

  datatype Reveal = Reveal(
    orderNonce: int, side: bool, amountIn: int, limitPrice: int, submittedAtBlock: int,
    owner: int, pathLen: nat, path: (int, int, int))

  // ---------------------------------------------------------------- parsing

  function ParseWords(c: Codec, words: seq<string>): Option<seq<int>> {
    if |words| == 0 then Some([])
    else
      match c.big(words[0])
      case None => None
      case Some(w) =>
        match ParseWords(c, words[1..])
        case None => None
        case Some(rest) => Some([w] + rest)
  }

  function WordAt(words: seq<int>, i: nat): int {
    if i < |words| then words[i] else 0
  }

  /** A reveal as numbers, or None when any part of it does not parse. */
  function ParseReveal(c: Codec, r: Payload): Option<Reveal> {
    var words := match r.path case None => Some([0, 0, 0]) case Some(ws) => ParseWords(c, ws);
    var nonce, owner := c.field(r.orderNonce), c.field(r.owner);
    var amount, limit := c.big(r.amountIn), c.big(r.limitPrice);
    if words.None? || nonce.None? || owner.None? || amount.None? || limit.None? then None
    else Some(Reveal(nonce.value, r.side, amount.value, limit.value, r.submittedAtBlock, owner.value,
                     match r.pathLen case None => 2 case Some(n) => n,
                     (WordAt(words.value, 0), WordAt(words.value, 1), WordAt(words.value, 2))))
  }

  function Parsed(c: Codec, payloads: seq<Payload>): seq<Reveal> {
    if |payloads| == 0 then []
    else
      var earlier := Parsed(c, payloads[..|payloads| - 1]);
      match ParseReveal(c, payloads[|payloads| - 1])
      case None => earlier
      case Some(p) => earlier + [p]
  }

  // ------------------------------------------------------------- commitment

  function Ci(h: Hash, r: Reveal): int {
    h([r.owner, if r.side then 1 else 0, r.amountIn, r.limitPrice, r.orderNonce,
       r.submittedAtBlock, r.pathLen, r.path.0, r.path.1, r.path.2])
  }

  function Cis(h: Hash, rs: seq<Reveal>): (r: seq<int>)
    ensures |r| == |rs|
  {
    seq(|rs|, i requires 0 <= i < |rs| => Ci(h, rs[i]))
  }

  function OrderAcc(h: Hash, cis: seq<int>): int {
    if |cis| == 0 then 0 else h([OrderAcc(h, cis[..|cis| - 1]), cis[|cis| - 1]])
  }

  predicate Canonical(a: Reveal, b: Reveal) {
    a.submittedAtBlock < b.submittedAtBlock
    || (a.submittedAtBlock == b.submittedAtBlock && a.orderNonce <= b.orderNonce)
  }

  function RevealNonce(r: Reveal): int { r.orderNonce }

  /** All reveals in canonical order, or nothing. */
  function Validated(h: Hash, c: Codec, payloads: seq<Payload>, acc: int): seq<Reveal> {
    var sorted := Sort(Parsed(c, payloads), Canonical);
    if OrderAcc(h, Cis(h, sorted)) == acc then sorted else []
  }

  // ----------------------------------------------------------------- repair

  function LowDigit(x: nat, base: nat): (r: nat)
    requires base > 0
    ensures r < base
  {
    x % base
  }

  function HighDigits(x: nat, base: nat): nat
    requires base > 0
  {
    FloorNonNeg(x, base);
    x / base
  }

  /** Mixed-radix digits of a combination number, lowest first. */
  function Digits(combo: nat, base: nat, n: nat): (r: seq<nat>)
    requires base > 0
    ensures |r| == n
    decreases n
  {
    if n == 0 then [] else [LowDigit(combo, base)] + Digits(HighDigits(combo, base), base, n - 1)
  }

  function Power(base: nat, n: nat): nat {
    if n == 0 then 1 else base * Power(base, n - 1)
  }

  /** Every block moved back by its offset. */
  function Shift(rs: seq<Reveal>, offsets: seq<nat>): (r: seq<Reveal>)
    requires |offsets| == |rs|
    ensures |r| == |rs|
  {
    seq(|rs|, i requires 0 <= i < |rs| => rs[i].(submittedAtBlock := rs[i].submittedAtBlock - offsets[i]))
  }

  function Corrected(rs: seq<Reveal>, offsets: seq<nat>): seq<Reveal>
    requires |offsets| == |rs|
  {
    Sort(Shift(rs, offsets), Canonical)
  }

  predicate Matches(h: Hash, rs: seq<Reveal>, offsets: seq<nat>, acc: int)
    requires |offsets| == |rs|
  {
    OrderAcc(h, Cis(h, Corrected(rs, offsets))) == acc
  }

  /** First combination, from `combo` on, whose fold matches. */
  function FirstMatch(h: Hash, rs: seq<Reveal>, acc: int, base: nat, combo: nat): Option<nat>
    requires base > 0
    decreases Power(base, |rs|) - combo
  {
    if combo >= Power(base, |rs|) then None
    else if Matches(h, rs, Digits(combo, base, |rs|), acc) then Some(combo)
    else FirstMatch(h, rs, acc, base, combo + 1)
  }

  datatype Correction = Correction(orderNonce: int, from: int, to: int)

  datatype Repaired = Repaired(validated: seq<Reveal>, corrections: seq<Correction>)

  /** The block a nonce was revealed with; the last such reveal counts. */
  function RevealedBlock(rs: seq<Reveal>, nonce: int): Option<int> {
    if |rs| == 0 then None
    else if rs[|rs| - 1].orderNonce == nonce then Some(rs[|rs| - 1].submittedAtBlock)
    else RevealedBlock(rs[..|rs| - 1], nonce)
  }

  /** The reveals whose block moved. */
  function Corrections(rs: seq<Reveal>, corrected: seq<Reveal>): seq<Correction> {
    if |corrected| == 0 then []
    else
      var earlier := Corrections(rs, corrected[..|corrected| - 1]);
      var c := corrected[|corrected| - 1];
      match RevealedBlock(rs, c.orderNonce)
      case None => earlier
      case Some(from) =>
        if from == c.submittedAtBlock then earlier
        else earlier + [Correction(c.orderNonce, from, c.submittedAtBlock)]
  }

  /** Search the drift box for a correction the accumulator confirms. */
  function Repair(h: Hash, c: Codec, payloads: seq<Payload>, acc: int, maxOffset: nat, maxOrders: nat)
    : Option<Repaired>
  {
    if |payloads| == 0 || |payloads| > maxOrders then None
    else
      var rs := Parsed(c, payloads);
      match FirstMatch(h, rs, acc, maxOffset + 1, 0)
      case None => None
      case Some(combo) =>
        var corrected := Corrected(rs, Digits(combo, maxOffset + 1, |rs|));
        Some(Repaired(corrected, Corrections(rs, corrected)))
  }

  // --------------------------------------------------------------- the loops

  method ReplayOrderAcc(h: Hash, cis: seq<int>) returns (acc: int)
    ensures acc == OrderAcc(h, cis)
  {
    acc := 0;
    for i := 0 to |cis|
      invariant acc == OrderAcc(h, cis[..i])
    {
      assert cis[..i + 1][..i] == cis[..i];
      acc := h([acc, cis[i]]);
    }
    assert cis[..|cis|] == cis;
  }

  method CommitAll(h: Hash, rs: seq<Reveal>) returns (cis: seq<int>)
    ensures cis == Cis(h, rs)
  {
    cis := [];
    for i := 0 to |rs|
      invariant cis == Cis(h, rs[..i])
    {
      cis := cis + [Ci(h, rs[i])];
    }
    assert rs[..|rs|] == rs;
  }

  method ValidateReveals(h: Hash, c: Codec, payloads: seq<Payload>, expectedOrderAcc: int)
    returns (r: seq<Reveal>)
    ensures r == Validated(h, c, payloads, expectedOrderAcc)
  {
    var parsed := Sort(Parsed(c, payloads), Canonical);
    var cis := CommitAll(h, parsed);
    var replayed := ReplayOrderAcc(h, cis);
    return if replayed != expectedOrderAcc then [] else parsed;
  }

  /** The digits of one combination, peeled off one reveal at a time. */
  method DecodeOffsets(combo: nat, base: nat, n: nat) returns (offsets: seq<nat>)
    requires base > 0
    ensures offsets == Digits(combo, base, n)
  {
    hide LowDigit, HighDigits;
    var rem: nat := combo;
    offsets := [];
    for i := 0 to n
      invariant offsets + Digits(rem, base, n - i) == Digits(combo, base, n)
    {
      assert Digits(rem, base, n - i) == [LowDigit(rem, base)] + Digits(HighDigits(rem, base), base, n - i - 1);
      offsets := offsets + [LowDigit(rem, base)];
      rem := HighDigits(rem, base);
    }
    assert offsets + [] == offsets;
  }

  method RepairReveals(h: Hash, c: Codec, payloads: seq<Payload>, expectedOrderAcc: int,
                       maxOffset: nat, maxOrders: nat)
    returns (r: Option<Repaired>)
    ensures r == Repair(h, c, payloads, expectedOrderAcc, maxOffset, maxOrders)
  {
    if |payloads| == 0 || |payloads| > maxOrders {
      return None;
    }
    hide Digits, Corrected, OrderAcc, Cis, Corrections;
    var parsed := Parsed(c, payloads);
    var base := maxOffset + 1;
    var combos := Power(base, |parsed|);
    for combo := 0 to combos
      invariant FirstMatch(h, parsed, expectedOrderAcc, base, 0)
             == FirstMatch(h, parsed, expectedOrderAcc, base, combo)
    {
      var offsets := DecodeOffsets(combo, base, |parsed|);
      var corrected := Corrected(parsed, offsets);
      var cis := CommitAll(h, corrected);
      var replayed := ReplayOrderAcc(h, cis);
      if replayed == expectedOrderAcc {
        return Some(Repaired(corrected, Corrections(parsed, corrected)));
      }
    }
    return None;
  }

  // ------------------------------------------------------------ replay lemmas

  lemma CommitmentBinds(h: Hash, a: Reveal, b: Reveal)
    requires Injective(h) && Ci(h, a) == Ci(h, b)
    ensures a == b
  {
    var x := [a.owner, if a.side then 1 else 0, a.amountIn, a.limitPrice, a.orderNonce,
              a.submittedAtBlock, a.pathLen, a.path.0, a.path.1, a.path.2];
    var y := [b.owner, if b.side then 1 else 0, b.amountIn, b.limitPrice, b.orderNonce,
              b.submittedAtBlock, b.pathLen, b.path.0, b.path.1, b.path.2];
    assert x == y;
    assert x[0] == y[0] && x[1] == y[1] && x[2] == y[2] && x[3] == y[3] && x[4] == y[4];
    assert x[5] == y[5] && x[6] == y[6] && x[7] == y[7] && x[8] == y[8] && x[9] == y[9];
  }

  /** Equal accumulators fold equal commitment lists. */
  lemma {:induction false} AccumulatorBinds(h: Hash, xs: seq<int>, ys: seq<int>)
    requires Injective(h) && NeverZero(h) && OrderAcc(h, xs) == OrderAcc(h, ys)
    ensures xs == ys
  {
    if |xs| > 0 && |ys| > 0 {
      var a := [OrderAcc(h, xs[..|xs| - 1]), xs[|xs| - 1]];
      var b := [OrderAcc(h, ys[..|ys| - 1]), ys[|ys| - 1]];
      assert a == b;
      assert a[0] == b[0] && a[1] == b[1];
      AccumulatorBinds(h, xs[..|xs| - 1], ys[..|ys| - 1]);
      assert xs == xs[..|xs| - 1] + [xs[|xs| - 1]];
      assert ys == ys[..|ys| - 1] + [ys[|ys| - 1]];
    }
  }

  lemma CommittedListBinds(h: Hash, xs: seq<Reveal>, ys: seq<Reveal>)
    requires Injective(h) && NeverZero(h) && OrderAcc(h, Cis(h, xs)) == OrderAcc(h, Cis(h, ys))
    ensures xs == ys
  {
    hide Ci;
    AccumulatorBinds(h, Cis(h, xs), Cis(h, ys));
    assert |Cis(h, xs)| == |Cis(h, ys)|;
    forall i | 0 <= i < |xs|
      ensures xs[i] == ys[i]
    {
      assert Cis(h, xs)[i] == Cis(h, ys)[i];
      CommitmentBinds(h, xs[i], ys[i]);
    }
  }

  /**
   Replay soundness, both ways: against the accumulator of a committed sequence,
   validation returns that very sequence when the canonical reveals are it, and
   nothing otherwise. No order can be dropped, injected or altered.
   */
  lemma ReplayIsSound(h: Hash, c: Codec, payloads: seq<Payload>, committed: seq<Reveal>)
    requires Injective(h) && NeverZero(h)
    ensures Validated(h, c, payloads, OrderAcc(h, Cis(h, committed)))
         == if Sort(Parsed(c, payloads), Canonical) == committed then committed else []
  {
    hide Cis, OrderAcc, Sort;
    var sorted := Sort(Parsed(c, payloads), Canonical);
    if OrderAcc(h, Cis(h, sorted)) == OrderAcc(h, Cis(h, committed)) {
      CommittedListBinds(h, sorted, committed);
    }
  }

  lemma CanonicalIsTotal()
    ensures TotalPreorder(Canonical)
  {}

  // ------------------------------------------------------------ reading a reveal

  /** Word i of a revealed path; a missing word is zero. */
  ghost predicate WordReads(c: Codec, path: Option<seq<string>>, i: nat, word: int) {
    if path.Some? && i < |path.value| then c.big(path.value[i]) == Some(word) else word == 0
  }

  /** The payload reads as the reveal, field by field, and nothing in it fails to read. */
  ghost predicate ReadsAs(c: Codec, p: Payload, r: Reveal) {
    && c.field(p.orderNonce) == Some(r.orderNonce) && c.field(p.owner) == Some(r.owner)
    && c.big(p.amountIn) == Some(r.amountIn) && c.big(p.limitPrice) == Some(r.limitPrice)
    && r.side == p.side && r.submittedAtBlock == p.submittedAtBlock
    && r.pathLen == (if p.pathLen.Some? then p.pathLen.value else 2)
    && WordReads(c, p.path, 0, r.path.0) && WordReads(c, p.path, 1, r.path.1) && WordReads(c, p.path, 2, r.path.2)
    && (p.path.Some? ==> forall i :: 0 <= i < |p.path.value| ==> c.big(p.path.value[i]).Some?)
  }

  lemma {:induction false} WordsParse(c: Codec, words: seq<string>)
    ensures ParseWords(c, words).Some? <==> forall i :: 0 <= i < |words| ==> c.big(words[i]).Some?
    ensures ParseWords(c, words).Some? ==>
      && |ParseWords(c, words).value| == |words|
      && forall i :: 0 <= i < |words| ==> c.big(words[i]) == Some(ParseWords(c, words).value[i])
  {
    if |words| > 0 {
      WordsParse(c, words[1..]);
      assert forall i :: 0 < i < |words| ==> words[i] == words[1..][i - 1];
    }
  }

  /** Parsing a payload yields a reveal exactly when the payload reads as that reveal. */
  lemma ParsesExactly(c: Codec, p: Payload, r: Reveal)
    ensures ParseReveal(c, p) == Some(r) <==> ReadsAs(c, p, r)
  {
    if p.path.Some? {
      WordsParse(c, p.path.value);
    }
  }

  /** And a payload is dropped exactly when one of its parts does not read. */
  lemma DroppedExactly(c: Codec, p: Payload)
    ensures ParseReveal(c, p) == None <==>
      || c.field(p.orderNonce).None? || c.field(p.owner).None?
      || c.big(p.amountIn).None? || c.big(p.limitPrice).None?
      || (p.path.Some? && exists i :: 0 <= i < |p.path.value| && c.big(p.path.value[i]).None?)
  {
    if p.path.Some? {
      WordsParse(c, p.path.value);
    }
  }

  lemma {:induction false} ParsedOf(c: Codec, payloads: seq<Payload>, rs: seq<Reveal>)
    requires |payloads| == |rs| && forall i :: 0 <= i < |payloads| ==> ReadsAs(c, payloads[i], rs[i])
    ensures Parsed(c, payloads) == rs
  {
    hide ReadsAs, ParseReveal;
    if |payloads| > 0 {
      var n := |payloads| - 1;
      ParsedOf(c, payloads[..n], rs[..n]);
      ParsesExactly(c, payloads[n], rs[n]);
      assert rs == rs[..n] + [rs[n]];
    }
  }

  /** The canonical order, on the fields: by block, and by nonce within a block. */
  ghost predicate InOrder(rs: seq<Reveal>) {
    forall i, j :: 0 <= i < j < |rs| ==>
      rs[i].submittedAtBlock < rs[j].submittedAtBlock
      || (rs[i].submittedAtBlock == rs[j].submittedAtBlock && rs[i].orderNonce < rs[j].orderNonce)
  }

  /** An honest reveal of every committed order, in any arrival order, is accepted. */
  lemma HonestRevealsAccepted(h: Hash, c: Codec, payloads: seq<Payload>, committed: seq<Reveal>)
    requires multiset(Parsed(c, payloads)) == multiset(committed)
    requires Sorted(committed, Canonical) && DistinctBy(committed, RevealNonce)
    ensures Validated(h, c, payloads, OrderAcc(h, Cis(h, committed))) == committed
  {
    var parsed := Parsed(c, payloads);
    CanonicalIsTotal();
    SortSorted(parsed, Canonical);
    SortPermutes(parsed, Canonical);
    forall a, b | a in committed && b in committed && Canonical(a, b) && Canonical(b, a)
      ensures a == b
    {
      var i :| 0 <= i < |committed| && committed[i] == a;
      var j :| 0 <= j < |committed| && committed[j] == b;
      assert RevealNonce(a) == RevealNonce(b);
    }
    SortedUnique(committed, Sort(parsed, Canonical), Canonical);
  }

  lemma {:induction false} ParsedAppend(c: Codec, xs: seq<Payload>, ys: seq<Payload>)
    ensures Parsed(c, xs + ys) == Parsed(c, xs) + Parsed(c, ys)
  {
    hide ParseReveal;
    if |ys| == 0 {
      assert xs + ys == xs;
    } else {
      ParsedAppend(c, xs, ys[..|ys| - 1]);
      assert (xs + ys)[..|xs + ys| - 1] == xs + ys[..|ys| - 1];
    }
  }

  /** Unparseable reveals, inserted anywhere, change nothing. */
  lemma UnparseableRevealsIgnored(h: Hash, c: Codec, xs: seq<Payload>, bad: seq<Payload>, ys: seq<Payload>, acc: int)
    requires forall i :: 0 <= i < |bad| ==> ParseReveal(c, bad[i]) == None
    ensures Validated(h, c, xs + bad + ys, acc) == Validated(h, c, xs + ys, acc)
  {
    ParsedAppend(c, xs + bad, ys);
    ParsedAppend(c, xs, bad);
    ParsedAppend(c, xs, ys);
    NothingParsed(c, bad);
    assert Parsed(c, xs) + [] == Parsed(c, xs);
  }

  lemma {:induction false} NothingParsed(c: Codec, bad: seq<Payload>)
    requires forall i :: 0 <= i < |bad| ==> ParseReveal(c, bad[i]) == None
    ensures Parsed(c, bad) == []
  {
    hide ParseReveal;
    if |bad| > 0 {
      NothingParsed(c, bad[..|bad| - 1]);
    }
  }

  // ------------------------------------------------------------ repair lemmas

  /** The combination number of an offset vector. */
  function Encode(offsets: seq<nat>, base: nat): nat {
    if |offsets| == 0 then 0 else offsets[0] + base * Encode(offsets[1..], base)
  }

  lemma {:induction false} DigitsInBox(combo: nat, base: nat, n: nat)
    requires base > 0
    ensures forall i :: 0 <= i < n ==> Digits(combo, base, n)[i] < base
    decreases n
  {
    hide LowDigit, HighDigits;
    if n > 0 {
      DigitsInBox(HighDigits(combo, base), base, n - 1);
    }
  }

  /** Every vector of the box is the decoding of a combination in range. */
  lemma {:induction false} DigitsCoverBox(offsets: seq<nat>, base: nat)
    requires base > 0 && forall i :: 0 <= i < |offsets| ==> offsets[i] < base
    ensures Encode(offsets, base) < Power(base, |offsets|)
    ensures Digits(Encode(offsets, base), base, |offsets|) == offsets
  {
    if |offsets| > 0 {
      var rest := offsets[1..];
      DigitsCoverBox(rest, base);
      LowestDigit(offsets[0], Encode(rest, base), base, Power(base, |rest|));
      assert offsets == [offsets[0]] + rest;
    }
  }

  lemma LowestDigit(d: nat, high: nat, base: nat, bound: nat)
    requires d < base && high < bound
    ensures LowDigit(d + base * high, base) == d && HighDigits(d + base * high, base) == high
    ensures d + base * high < base * bound
  {
    DivisionIsUnique(d + base * high, base, high, d);
    MulMono(high + 1, bound, base);
    assert (high + 1) * base == base * high + base && bound * base == base * bound;
  }

  lemma DivisionIsUnique(x: int, b: nat, q: int, r: nat)
    requires b > 0 && x == r + b * q && r < b
    ensures x / b == q && x % b == r
  {
    FloorAtLeast(x, b, q);
    FloorAtLeast(x, b, q + 1);
    assert (q + 1) * b == b * q + b && q * b == b * q;
  }

  lemma {:induction false} FirstMatchIsFirst(h: Hash, rs: seq<Reveal>, acc: int, base: nat, combo: nat)
    requires base > 0
    ensures
      var r := FirstMatch(h, rs, acc, base, combo);
      && (r.Some? ==> combo <= r.value < Power(base, |rs|) && Matches(h, rs, Digits(r.value, base, |rs|), acc))
      && (forall k :: combo <= k < (if r.Some? then r.value else Power(base, |rs|)) ==>
            !Matches(h, rs, Digits(k, base, |rs|), acc))
    decreases Power(base, |rs|) - combo
  {
    hide Matches, Digits;
    if combo < Power(base, |rs|) && !Matches(h, rs, Digits(combo, base, |rs|), acc) {
      FirstMatchIsFirst(h, rs, acc, base, combo + 1);
    }
  }

  ghost predicate InBox(offsets: seq<nat>, n: nat, maxOffset: nat) {
    |offsets| == n && forall i :: 0 <= i < n ==> offsets[i] <= maxOffset
  }

  /** Some drift within the box explains the accumulator. */
  ghost predicate Repairable(h: Hash, rs: seq<Reveal>, acc: int, maxOffset: nat) {
    exists offsets :: InBox(offsets, |rs|, maxOffset) && Matches(h, rs, offsets, acc)
  }

  /**
   Repair is sound and complete: on a batch within the size cap it succeeds exactly
   when some offset vector of the box reproduces the accumulator, and what it
   returns is the canonical order of such a correction.
   */
  lemma RepairIsSoundAndComplete(h: Hash, c: Codec, payloads: seq<Payload>, acc: int, maxOffset: nat, maxOrders: nat)
    requires 0 < |payloads| <= maxOrders
    ensures Repair(h, c, payloads, acc, maxOffset, maxOrders).Some? <==>
      Repairable(h, Parsed(c, payloads), acc, maxOffset)
    ensures Repair(h, c, payloads, acc, maxOffset, maxOrders).Some? ==>
      var fixed := Repair(h, c, payloads, acc, maxOffset, maxOrders).value.validated;
      && OrderAcc(h, Cis(h, fixed)) == acc
      && exists offsets :: InBox(offsets, |Parsed(c, payloads)|, maxOffset)
                           && fixed == Corrected(Parsed(c, payloads), offsets)
  {
    hide Corrected, OrderAcc, Cis, Corrections, FirstMatch, Digits;
    var rs, base := Parsed(c, payloads), maxOffset + 1;
    FirstMatchIsFirst(h, rs, acc, base, 0);
    var found := FirstMatch(h, rs, acc, base, 0);
    if found.Some? {
      var d := Digits(found.value, base, |rs|);
      DigitsInBox(found.value, base, |rs|);
      assert InBox(d, |rs|, maxOffset);
      assert Matches(h, rs, d, acc);
      assert Repairable(h, rs, acc, maxOffset);
      assert Repair(h, c, payloads, acc, maxOffset, maxOrders).value.validated == Corrected(rs, d);
    } else {
      forall offsets | InBox(offsets, |rs|, maxOffset)
        ensures !Matches(h, rs, offsets, acc)
      {
        DigitsCoverBox(offsets, base);
      }
      assert !Repairable(h, rs, acc, maxOffset);
    }
  }

  /** A repair against the accumulator of a committed sequence is that sequence. */
  lemma RepairRecoversCommitted(h: Hash, c: Codec, payloads: seq<Payload>, committed: seq<Reveal>,
                                maxOffset: nat, maxOrders: nat)
    requires Injective(h) && NeverZero(h)
    ensures
      var r := Repair(h, c, payloads, OrderAcc(h, Cis(h, committed)), maxOffset, maxOrders);
      r.Some? ==> r.value.validated == committed
  {
    hide Cis, OrderAcc;
    var acc := OrderAcc(h, Cis(h, committed));
    var r := Repair(h, c, payloads, acc, maxOffset, maxOrders);
    if r.Some? {
      RepairIsSoundAndComplete(h, c, payloads, acc, maxOffset, maxOrders);
      CommittedListBinds(h, r.value.validated, committed);
    }
  }

  lemma {:induction false} RevealedBlockOf(rs: seq<Reveal>, i: nat)
    requires DistinctBy(rs, RevealNonce) && i < |rs|
    ensures RevealedBlock(rs, rs[i].orderNonce) == Some(rs[i].submittedAtBlock)
  {
    if i < |rs| - 1 {
      assert RevealNonce(rs[i]) != RevealNonce(rs[|rs| - 1]);
      RevealedBlockOf(rs[..|rs| - 1], i);
    }
  }

  lemma {:induction false} CorrectionListed(rs: seq<Reveal>, corrected: seq<Reveal>, x: Correction)
    ensures x in Corrections(rs, corrected) <==>
      exists i :: 0 <= i < |corrected| && corrected[i].orderNonce == x.orderNonce
                  && corrected[i].submittedAtBlock == x.to
                  && RevealedBlock(rs, x.orderNonce) == Some(x.from) && x.from != x.to
  {
    hide RevealedBlock;
    if |corrected| > 0 {
      var n := |corrected| - 1;
      CorrectionListed(rs, corrected[..n], x);
      if exists i :: 0 <= i < |corrected| && corrected[i].orderNonce == x.orderNonce
                     && corrected[i].submittedAtBlock == x.to
                     && RevealedBlock(rs, x.orderNonce) == Some(x.from) && x.from != x.to {
        var i :| 0 <= i < |corrected| && corrected[i].orderNonce == x.orderNonce
                 && corrected[i].submittedAtBlock == x.to;
        assert i < n ==> corrected[..n][i] == corrected[i];
      }
    }
  }

  /** With distinct nonces the corrections are exactly the reveals that moved, and by how much. */
  lemma CorrectionsAreTheMoves(rs: seq<Reveal>, offsets: seq<nat>, x: Correction)
    requires |offsets| == |rs| && DistinctBy(rs, RevealNonce)
    ensures x in Corrections(rs, Corrected(rs, offsets)) <==>
      exists i :: 0 <= i < |rs| && offsets[i] > 0
                  && x == Correction(rs[i].orderNonce, rs[i].submittedAtBlock, rs[i].submittedAtBlock - offsets[i])
  {
    var shifted, corrected := Shift(rs, offsets), Corrected(rs, offsets);
    SortPermutes(shifted, Canonical);
    CorrectionListed(rs, corrected, x);
    if x in Corrections(rs, corrected) {
      var k :| 0 <= k < |corrected| && corrected[k].orderNonce == x.orderNonce && corrected[k].submittedAtBlock == x.to;
      assert corrected[k] in multiset(shifted);
      var i :| 0 <= i < |shifted| && shifted[i] == corrected[k];
      RevealedBlockOf(rs, i);
      assert offsets[i] > 0;
    }
    if exists i :: 0 <= i < |rs| && offsets[i] > 0
                   && x == Correction(rs[i].orderNonce, rs[i].submittedAtBlock, rs[i].submittedAtBlock - offsets[i]) {
      var i :| 0 <= i < |rs| && offsets[i] > 0
               && x == Correction(rs[i].orderNonce, rs[i].submittedAtBlock, rs[i].submittedAtBlock - offsets[i]);
      RevealedBlockOf(rs, i);
      assert shifted[i] in multiset(corrected);
    }
  }
}
