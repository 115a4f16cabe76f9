/** The deterministic choice of an auditor in peer_handlers/global_auditor/GlobalAuditor.ts:
    every node elects itself exactly when no peer is nearer to the challenge by XOR distance. */
module AuditorElection {
  import opened Arith
  import opened Platform

  predicate IsHex(c: char) {
    '0' <= c <= '9' || 'a' <= c <= 'f'
  }

  predicate IsHexText(s: string) {
    forall i :: 0 <= i < |s| ==> IsHex(s[i])
  }

  type HexDigest = s: string | |s| == 64 && IsHexText(s) witness seq(64, _ => '0')
  type HexHash = string -> HexDigest

  function ParseHex(c: char): (n: nat)
    requires IsHex(c)
    ensures n < 16
  {
    if c <= '9' then (c - '0') as nat else (c - 'a') as nat + 10
  }

  function PrintHex(n: nat): (c: char)
    requires n < 16
    ensures IsHex(c) && ParseHex(c) == n
  {
    if n < 10 then '0' + n as char else 'a' + (n - 10) as char
  }

  function Pow2(n: nat): (p: nat)
    ensures p > 0
  {
    if n == 0 then 1 else 2 * Pow2(n - 1)
  }

  /** Bitwise exclusive or of two numbers of the given width. */
  function Xor(a: nat, b: nat, width: nat): (x: nat)
    requires a < Pow2(width) && b < Pow2(width)
    ensures x < Pow2(width)
  {
    if width == 0 then 0 else 2 * Xor(a / 2, b / 2, width - 1) + (a + b) % 2
  }

  function XorNibble(a: nat, b: nat): (x: nat)
    requires a < 16 && b < 16
    ensures x < 16
  {
    assert Pow2(4) == 2 * Pow2(3) && Pow2(3) == 2 * Pow2(2);
    Xor(a, b, 4)
  }

  lemma {:induction false} HalfAndParity(y: nat, r: nat)
    requires r < 2
    ensures (2 * y + r) / 2 == y && (2 * y + r) % 2 == r
  {
  }

  lemma {:induction false} ParityCancels(c: nat, a: nat)
    ensures (c + (c + a) % 2) % 2 == a % 2
  {
  }

  lemma {:induction false} ParityOfSum(c: nat, x: nat)
    ensures (c + x) % 2 == (c + x % 2) % 2
  {
  }

  /** XOR with a fixed number undoes itself. */
  lemma {:induction false} XorInvolution(c: nat, a: nat, width: nat)
    requires c < Pow2(width) && a < Pow2(width)
    ensures Xor(c, Xor(c, a, width), width) == a
    decreases width
  {
    if width == 0 {
    } else {
      var y, r := Xor(c / 2, a / 2, width - 1), (c + a) % 2;
      HalfAndParity(y, r);
      XorInvolution(c / 2, a / 2, width - 1);
      ParityOfSum(c, 2 * y + r);
      ParityCancels(c, a);
      assert Xor(c, 2 * y + r, width) == 2 * (a / 2) + a % 2;
    }
  }

  predicate Bit(a: nat, k: nat) {
    if k == 0 then a % 2 == 1 else Bit(a / 2, k - 1)
  }

  /** A bit of the exclusive or is set exactly if the two numbers differ in it. */
  lemma {:induction false} XorBits(a: nat, b: nat, width: nat, k: nat)
    requires a < Pow2(width) && b < Pow2(width) && k < width
    ensures Bit(Xor(a, b, width), k) <==> Bit(a, k) != Bit(b, k)
  {
    HalfAndParity(Xor(a / 2, b / 2, width - 1), (a + b) % 2);
    if k == 0 {
    } else {
      XorBits(a / 2, b / 2, width - 1, k - 1);
    }
  }

  lemma {:induction false} XorSelf(a: nat, width: nat)
    requires a < Pow2(width)
    ensures Xor(a, a, width) == 0
    decreases width
  {
    if width == 0 {
    } else {
      XorSelf(a / 2, width - 1);
    }
  }

  lemma {:induction false} XorIsZero(a: nat, b: nat, width: nat)
    requires a < Pow2(width) && b < Pow2(width)
    ensures Xor(a, b, width) == 0 <==> a == b
  {
    XorSelf(a, width);
    XorInvolution(a, a, width);
    XorInvolution(a, b, width);
  }

  // ---------- XOR distance ----------

  function Distance(a: string, b: string): (d: string)
    requires |a| == |b| && IsHexText(a) && IsHexText(b)
    ensures |d| == |a| && IsHexText(d)
  {
    if a == "" then "" else [PrintHex(XorNibble(ParseHex(a[0]), ParseHex(b[0])))] + Distance(a[1..], b[1..])
  }

  method ComputeXORDistance(hashA: string, hashB: string) returns (result: string)
    requires |hashA| == |hashB| && IsHexText(hashA) && IsHexText(hashB)
    ensures result == Distance(hashA, hashB)
  {
    result := "";
    var i := 0;
    while i < |hashA|
      invariant 0 <= i <= |hashA|
      invariant result + Distance(hashA[i..], hashB[i..]) == Distance(hashA, hashB)
    {
      assert hashA[i..][1..] == hashA[i + 1..] && hashB[i..][1..] == hashB[i + 1..];
      var hexA := ParseHex(hashA[i]);
      var hexB := ParseHex(hashB[i]);
      result := result + [PrintHex(XorNibble(hexA, hexB))];
      i := i + 1;
    }
  }

  lemma {:induction false} ParseHexInjective(x: char, y: char)
    requires IsHex(x) && IsHex(y) && ParseHex(x) == ParseHex(y)
    ensures x == y
  {
    assert PrintHex(ParseHex(x)) == x && PrintHex(ParseHex(y)) == y;
  }

  /** Different digests are at different distances from one challenge. */
  lemma {:induction false} DistanceInjective(c: string, a: string, b: string)
    requires |c| == |a| == |b| && IsHexText(c) && IsHexText(a) && IsHexText(b)
    requires Distance(c, a) == Distance(c, b)
    ensures a == b
  {
    if c == "" {
    } else {
      assert Distance(c, a)[0] == Distance(c, b)[0] && Distance(c, a)[1..] == Distance(c, b)[1..];
      assert Distance(c, a)[1..] == Distance(c[1..], a[1..]) && Distance(c, b)[1..] == Distance(c[1..], b[1..]);
      DistanceInjective(c[1..], a[1..], b[1..]);
      assert Pow2(4) == 2 * Pow2(3) && Pow2(3) == 2 * Pow2(2);
      XorInvolution(ParseHex(c[0]), ParseHex(a[0]), 4);
      XorInvolution(ParseHex(c[0]), ParseHex(b[0]), 4);
      ParseHexInjective(a[0], b[0]);
      assert a == [a[0]] + a[1..] && b == [b[0]] + b[1..];
    }
  }

  /** Digit by digit, and in each digit bit by bit, the distance shows where the two hashes differ. */
  lemma {:induction false} DistanceBits(a: string, b: string, i: nat, k: nat)
    requires |a| == |b| && IsHexText(a) && IsHexText(b) && i < |a| && k < 4
    ensures Bit(ParseHex(Distance(a, b)[i]), k) <==> Bit(ParseHex(a[i]), k) != Bit(ParseHex(b[i]), k)
  {
    if i == 0 {
      assert Pow2(4) == 2 * Pow2(3) && Pow2(3) == 2 * Pow2(2);
      XorBits(ParseHex(a[0]), ParseHex(b[0]), 4, k);
    } else {
      DistanceBits(a[1..], b[1..], i - 1, k);
    }
  }

  // ---------- Order of distances ----------

  predicate Smaller(a: string, b: string)
    requires IsHexText(a) && IsHexText(b)
    decreases |a|
  {
    if |a| != |b| then |a| < |b|
    else if a == "" then false
    else if ParseHex(a[0]) != ParseHex(b[0]) then ParseHex(a[0]) < ParseHex(b[0])
    else Smaller(a[1..], b[1..])
  }

  method IsSmallerDistance(hexA: string, hexB: string) returns (smaller: bool)
    requires IsHexText(hexA) && IsHexText(hexB)
    ensures smaller == Smaller(hexA, hexB)
  {
    if |hexA| != |hexB| {
      return |hexA| < |hexB|;
    }
    var i := 0;
    while i < |hexA|
      invariant 0 <= i <= |hexA|
      invariant Smaller(hexA[i..], hexB[i..]) == Smaller(hexA, hexB)
    {
      assert hexA[i..][1..] == hexA[i + 1..] && hexB[i..][1..] == hexB[i + 1..];
      var a := ParseHex(hexA[i]);
      var b := ParseHex(hexB[i]);
      if a != b {
        return a < b;
      }
      i := i + 1;
    }
    smaller := false;
  }

  function Pow16(n: nat): (p: nat)
    ensures p > 0
  {
    if n == 0 then 1 else 16 * Pow16(n - 1)
  }

  /** The number a hexadecimal text denotes. */
  function Value(s: string): (v: nat)
    requires IsHexText(s)
  {
    if s == "" then 0 else ParseHex(s[0]) * Pow16(|s| - 1) + Value(s[1..])
  }

  lemma {:induction false} DigitTimes(d: nat, p: nat)
    requires d < 16
    ensures d * p + p <= 16 * p
  {
    MulMonotone(p, d + 1, 16);
    assert (d + 1) * p == d * p + p;
  }

  lemma {:induction false} ValueBound(s: string)
    requires IsHexText(s)
    ensures Value(s) < Pow16(|s|)
  {
    if s == "" {
    } else {
      ValueBound(s[1..]);
      DigitTimes(ParseHex(s[0]), Pow16(|s| - 1));
    }
  }

  lemma {:induction false} LeadingDigitDecides(p: nat, x: nat, y: nat, u: nat, v: nat)
    requires u < p
    ensures x < y ==> x * p + u < y * p + v
  {
    if x < y {
      MulMonotone(p, x + 1, y);
      assert (x + 1) * p == x * p + p;
    }
  }

  /** The character loop compares numbers. */
  lemma {:induction false} SmallerIsNumeric(a: string, b: string)
    requires IsHexText(a) && IsHexText(b) && |a| == |b|
    ensures Smaller(a, b) <==> Value(a) < Value(b)
    decreases |a|
  {
    if a == "" {
    } else {
      ValueBound(a[1..]);
      ValueBound(b[1..]);
      var p := Pow16(|a| - 1);
      var x, y := ParseHex(a[0]), ParseHex(b[0]);
      if x == y {
        SmallerIsNumeric(a[1..], b[1..]);
      } else {
        LeadingDigitDecides(p, x, y, Value(a[1..]), Value(b[1..]));
        LeadingDigitDecides(p, y, x, Value(b[1..]), Value(a[1..]));
      }
    }
  }

  lemma {:induction false} ValueInjective(a: string, b: string)
    requires IsHexText(a) && IsHexText(b) && |a| == |b| && Value(a) == Value(b)
    ensures a == b
  {
    if a == "" {
    } else {
      ValueBound(a[1..]);
      ValueBound(b[1..]);
      var p := Pow16(|a| - 1);
      LeadingDigitDecides(p, ParseHex(a[0]), ParseHex(b[0]), Value(a[1..]), Value(b[1..]));
      LeadingDigitDecides(p, ParseHex(b[0]), ParseHex(a[0]), Value(b[1..]), Value(a[1..]));
      ParseHexInjective(a[0], b[0]);
      ValueInjective(a[1..], b[1..]);
      assert a == [a[0]] + a[1..] && b == [b[0]] + b[1..];
    }
  }

  function HexText(n: nat, width: nat): (s: string)
    ensures |s| == width && IsHexText(s)
  {
    if width == 0 then "" else HexText(n / 16, width - 1) + [PrintHex(n % 16)]
  }

  lemma {:induction false} ShiftedDigit(d: nat, p: nat)
    ensures d * (16 * p) == 16 * (d * p)
  {
  }

  lemma {:induction false} ValueOfFirstDigit(s: string)
    requires IsHexText(s) && s != ""
    ensures Value(s) == ParseHex(s[0]) * Pow16(|s| - 1) + Value(s[1..])
  {
  }

  lemma {:induction false} ValueOfLastDigit(s: string, c: char)
    requires IsHexText(s) && IsHex(c)
    ensures Value(s + [c]) == 16 * Value(s) + ParseHex(c)
  {
    if s == "" {
      assert [c][1..] == "";
    } else {
      var longer, n := s + [c], |s|;
      assert longer[1..] == s[1..] + [c] && longer[0] == s[0];
      ValueOfFirstDigit(s);
      ValueOfFirstDigit(longer);
      ValueOfLastDigit(s[1..], c);
      assert Pow16(n) == 16 * Pow16(n - 1);
      ShiftedDigit(ParseHex(s[0]), Pow16(n - 1));
    }
  }

  /** Every number below 16^width has a text of that width. */
  lemma {:induction false} ValueOfHexText(n: nat, width: nat)
    requires n < Pow16(width)
    ensures Value(HexText(n, width)) == n
  {
    if width == 0 {
    } else {
      ValueOfHexText(n / 16, width - 1);
      ValueOfLastDigit(HexText(n / 16, width - 1), PrintHex(n % 16));
    }
  }

  // ---------- What is near ----------

  lemma {:induction false} LeadingDigit(c: string, a: string)
    requires |c| == |a| > 0 && IsHexText(c) && IsHexText(a)
    ensures Distance(c, a)[1..] == Distance(c[1..], a[1..])
    ensures ParseHex(Distance(c, a)[0]) == 0 <==> c[0] == a[0]
  {
    assert Pow2(4) == 2 * Pow2(3) && Pow2(3) == 2 * Pow2(2);
    XorIsZero(ParseHex(c[0]), ParseHex(a[0]), 4);
    if ParseHex(c[0]) == ParseHex(a[0]) {
      ParseHexInjective(c[0], a[0]);
    }
  }

  lemma {:induction false} SumIsZero(d: nat, p: nat, v: nat)
    requires p > 0
    ensures d * p + v == 0 <==> d == 0 && v == 0
  {
    if d > 0 {
      MulMonotone(p, 1, d);
    }
  }

  /** Nothing but the challenge itself is at distance zero. */
  lemma {:induction false} ZeroDistance(c: string, a: string)
    requires |c| == |a| && IsHexText(c) && IsHexText(a)
    ensures Value(Distance(c, a)) == 0 <==> c == a
  {
    if c == "" {
    } else {
      LeadingDigit(c, a);
      ZeroDistance(c[1..], a[1..]);
      SumIsZero(ParseHex(Distance(c, a)[0]), Pow16(|c| - 1), Value(Distance(c[1..], a[1..])));
      assert c == [c[0]] + c[1..] && a == [a[0]] + a[1..];
    }
  }

  /** A hash that shares a longer prefix with the challenge is nearer to it. */
  lemma {:induction false} LongerPrefixIsNearer(c: string, a: string, b: string, n: nat)
    requires |c| == |a| == |b| && IsHexText(c) && IsHexText(a) && IsHexText(b)
    requires n <= |c| && a[..n] == c[..n] && b[..n] != c[..n]
    ensures Value(Distance(c, a)) < Value(Distance(c, b))
    decreases n
  {
    assert a[0] == a[..n][0] == c[..n][0] == c[0];
    LeadingDigit(c, a);
    LeadingDigit(c, b);
    if b[0] == c[0] {
      assert a[..n][1..] == a[1..][..n - 1] && b[..n][1..] == b[1..][..n - 1] && c[..n][1..] == c[1..][..n - 1];
      assert b[..n] == [b[0]] + b[..n][1..] && c[..n] == [c[0]] + c[..n][1..];
      LongerPrefixIsNearer(c[1..], a[1..], b[1..], n - 1);
    } else {
      ValueBound(Distance(c, a)[1..]);
      LeadingDigitDecides(Pow16(|c| - 1), 0, ParseHex(Distance(c, b)[0]), Value(Distance(c, a)[1..]),
          Value(Distance(c, b)[1..]));
    }
  }

  // ---------- The election ----------

  function SanitizeKey(k: string): string {
    if k == "" then "" else (if IsSpace(k[0]) then "" else [k[0]]) + SanitizeKey(k[1..])
  }

  /** Distance of a node's id from a challenge, as a number. */
  function Remoteness(h: HexHash, challenge: HexDigest, id: string): nat {
    Value(Distance(challenge, h(id)))
  }

  /** No connected peer is strictly nearer. Peers without credentials have an empty raw id. */
  predicate Elected(h: HexHash, challenge: HexDigest, self: string, peers: seq<string>) {
    forall k :: 0 <= k < |peers| && peers[k] != "" ==>
      Remoteness(h, challenge, self) <= Remoteness(h, challenge, SanitizeKey(peers[k]))
  }

  /** A peer joins the fold: it wins if it is strictly nearer than the nearest so far. */
  lemma {:induction false} FoldStep(h: HexHash, challenge: HexDigest, self: string, peers: seq<string>, k: nat)
    requires k < |peers|
    ensures Elected(h, challenge, self, peers[..k + 1]) <==>
            && Elected(h, challenge, self, peers[..k])
            && (peers[k] != "" ==> Remoteness(h, challenge, self) <= Remoteness(h, challenge, SanitizeKey(peers[k])))
  {
    assert peers[..k + 1] == peers[..k] + [peers[k]];
    assert peers[..k + 1][k] == peers[k];
    if Elected(h, challenge, self, peers[..k + 1]) {
      forall i | 0 <= i < k && peers[..k][i] != ""
        ensures Remoteness(h, challenge, self) <= Remoteness(h, challenge, SanitizeKey(peers[..k][i]))
      {
        assert peers[..k + 1][i] == peers[..k][i];
      }
    }
  }

  method ComputeDeterministicAuditor(h: HexHash, challengeString: string, walletAddress: string, peers: seq<string>)
    returns (elected: bool)
    ensures elected <==> Elected(h, h(challengeString), SanitizeKey(walletAddress), peers)
  {
    var challengeHashHex := h(challengeString);
    var cleanSelfId := SanitizeKey(walletAddress);
    var closestId := cleanSelfId;
    var minDistance := ComputeXORDistance(challengeHashHex, h(cleanSelfId));
    var k := 0;
    while k < |peers|
      invariant 0 <= k <= |peers|
      invariant minDistance == Distance(challengeHashHex, h(closestId))
      invariant closestId == cleanSelfId <==> Elected(h, challengeHashHex, cleanSelfId, peers[..k])
      invariant closestId != cleanSelfId ==>
                  Remoteness(h, challengeHashHex, closestId) < Remoteness(h, challengeHashHex, cleanSelfId)
    {
      FoldStep(h, challengeHashHex, cleanSelfId, peers, k);
      if peers[k] != "" {
        var cleanPeerId := SanitizeKey(peers[k]);
        var distance := ComputeXORDistance(challengeHashHex, h(cleanPeerId));
        var nearer := IsSmallerDistance(distance, minDistance);
        SmallerIsNumeric(distance, minDistance);
        assert nearer <==> Remoteness(h, challengeHashHex, cleanPeerId) < Remoteness(h, challengeHashHex, closestId);
        if nearer {
          minDistance := distance;
          closestId := cleanPeerId;
        }
      }
      k := k + 1;
    }
    assert peers[..k] == peers;
    elected := closestId == cleanSelfId;
  }

  /** The list names j, among entries of the list that name nodes at all. */
  predicate Names(peers: seq<string>, j: string) {
    exists k :: 0 <= k < |peers| && peers[k] != "" && SanitizeKey(peers[k]) == j
  }

  /** A node whose hash shares a longer prefix with the challenge than any peer's elects itself, and no
      peer of such a node that has it in its list does. */
  lemma {:induction false} LongestPrefixWins(h: HexHash, challenge: HexDigest, self: string, peers: seq<string>, n: nat)
    requires n <= 64 && h(self)[..n] == challenge[..n]
    requires forall k :: 0 <= k < |peers| && peers[k] != "" ==> h(SanitizeKey(peers[k]))[..n] != challenge[..n]
    ensures Elected(h, challenge, self, peers)
    ensures forall k, others :: 0 <= k < |peers| && peers[k] != "" && Names(others, self) ==>
              !Elected(h, challenge, SanitizeKey(peers[k]), others)
  {
    forall k | 0 <= k < |peers| && peers[k] != ""
      ensures Remoteness(h, challenge, self) < Remoteness(h, challenge, SanitizeKey(peers[k]))
    {
      LongerPrefixIsNearer(challenge, h(self), h(SanitizeKey(peers[k])), n);
    }
  }

  /** Each node's list, in any order and with any repetitions, names every other node. */
  predicate FullyConnected(ids: set<string>, peersOf: map<string, seq<string>>) {
    && peersOf.Keys == ids
    && (forall i, k :: i in ids && 0 <= k < |peersOf[i]| && peersOf[i][k] != "" ==> SanitizeKey(peersOf[i][k]) in ids)
    && (forall i, j :: i in ids && j in ids && i != j ==> Names(peersOf[i], j))
  }

  ghost predicate SoleAuditor(h: HexHash, challenge: HexDigest, ids: set<string>, peersOf: map<string,
      seq<string>>, i: string)
    requires peersOf.Keys == ids
  {
    i in ids && forall j :: j in ids ==> (Elected(h, challenge, j, peersOf[j]) <==> j == i)
  }

  ghost function Nearest(h: HexHash, challenge: HexDigest, ids: set<string>): (best: string)
    requires ids != {}
    ensures best in ids && forall j :: j in ids ==> Remoteness(h, challenge, best) <= Remoteness(h, challenge, j)
  {
    var i :| i in ids;
    if ids == {i} then i
    else
      assert ids - {i} != {};
      var rest := Nearest(h, challenge, ids - {i});
      if Remoteness(h, challenge, i) <= Remoteness(h, challenge, rest) then i else rest
  }

  lemma {:induction false} NearestIsElected(h: HexHash, challenge: HexDigest, ids: set<string>, best: string,
      peers: seq<string>)
    requires forall j :: j in ids ==> Remoteness(h, challenge, best) <= Remoteness(h, challenge, j)
    requires forall k :: 0 <= k < |peers| && peers[k] != "" ==> SanitizeKey(peers[k]) in ids
    ensures Elected(h, challenge, best, peers)
  {
  }

  lemma {:induction false} FartherNodeYields(h: HexHash, challenge: HexDigest, j: string, best: string,
      peers: seq<string>)
    requires h(j) != h(best) && Remoteness(h, challenge, best) <= Remoteness(h, challenge, j)
    requires Names(peers, best)
    ensures !Elected(h, challenge, j, peers)
  {
    if Remoteness(h, challenge, j) == Remoteness(h, challenge, best) {
      ValueInjective(Distance(challenge, h(j)), Distance(challenge, h(best)));
      DistanceInjective(challenge, h(j), h(best));
    }
  }

  /** Exactly one node of a fully connected network elects itself. */
  lemma {:induction false} ExactlyOneAuditor(h: HexHash, challenge: HexDigest, ids: set<string>,
      peersOf: map<string, seq<string>>)
    requires ids != {} && FullyConnected(ids, peersOf)
    requires forall i, j :: i in ids && j in ids && h(i) == h(j) ==> i == j
    ensures exists i :: SoleAuditor(h, challenge, ids, peersOf, i)
  {
    var best := Nearest(h, challenge, ids);
    forall j | j in ids
      ensures Elected(h, challenge, j, peersOf[j]) <==> j == best
    {
      if j != best {
        assert Names(peersOf[j], best);
        FartherNodeYields(h, challenge, j, best, peersOf[j]);
      } else {
        NearestIsElected(h, challenge, ids, best, peersOf[best]);
      }
    }
    assert SoleAuditor(h, challenge, ids, peersOf, best);
  }
}
