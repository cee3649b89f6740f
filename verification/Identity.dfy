/** Does a management interface control the machine of the Node? (`src/identity.rs`) */
module Identity {
  import opened Prelude

  type Guid = g: seq<Byte> | |g| == 16 witness seq(16, _ => 0)

  datatype SystemId = Uuid(text: string) | RawGuid(bytes: Guid)

  datatype IdentityCheck =
    | Match
    | Mismatch(reported: string, expected: string)
    | Unverifiable

  // ----- hexadecimal text -------------------------------------------------------------------

  const DIGITS := "0123456789abcdef"

  function HexDigits(bytes: seq<Byte>): (h: string)
    ensures |h| == 2 * |bytes|
  {
    if bytes == [] then ""
    else [DIGITS[bytes[0] / 16], DIGITS[bytes[0] % 16]] + HexDigits(bytes[1..])
  }

  predicate IsHexDigit(c: char) {
    '0' <= c <= '9' || 'a' <= c <= 'f' || 'A' <= c <= 'F'
  }

  function Lower(c: char): char {
    if 'A' <= c <= 'Z' then (c as int + 32) as char else c
  }

  /** The hex digits of `text`, in order and in lower case. */
  function DigitsOf(text: string): string {
    if text == "" then ""
    else (if IsHexDigit(text[0]) then [Lower(text[0])] else "") + DigitsOf(text[1..])
  }

  /** A UUID as 32 lower-case hex digits; `None` for anything that is not a 128-bit value. */
  function Normalize(uuid: string): Option<string> {
    var h := DigitsOf(uuid);
    if |h| == 32 then Some(h) else None
  }

  predicate AllAre(h: string, c: char) {
    forall k :: 0 <= k < |h| ==> h[k] == c
  }

  /** All-zero and all-FF UUIDs mean "not set" and prove nothing. */
  predicate IsPlaceholder(h: string) {
    AllAre(h, '0') || AllAre(h, 'f')
  }

  lemma {:induction false} DigitsOfConcat(a: string, b: string)
    ensures DigitsOf(a + b) == DigitsOf(a) + DigitsOf(b)
  {
    if a == "" {
      assert a + b == b;
    } else {
      var c := if IsHexDigit(a[0]) then [Lower(a[0])] else "";
      DigitsOfConcat(a[1..], b);
      assert (a + b)[1..] == a[1..] + b && (a + b)[0] == a[0];
      assert DigitsOf(a + b) == c + DigitsOf(a[1..] + b);
      assert c + (DigitsOf(a[1..]) + DigitsOf(b)) == (c + DigitsOf(a[1..])) + DigitsOf(b);
    }
  }

  /** Separators do not matter: only the hex digits of a textual UUID count. */
  lemma SeparatorsAreIgnored(a: string, c: char, b: string)
    requires !IsHexDigit(c)
    ensures Normalize(a + [c] + b) == Normalize(a + b)
  {
    DigitsOfConcat(a + [c], b);
    DigitsOfConcat(a, [c]);
    DigitsOfConcat(a, b);
    assert [c][1..] == "";
    assert DigitsOf([c]) == "";
    assert DigitsOf(a) + "" == DigitsOf(a);
  }

  /** Letter case does not matter either. */
  lemma {:induction false} CaseIsIgnored(s: string, t: string)
    requires |s| == |t| && forall k :: 0 <= k < |s| ==> Lower(s[k]) == Lower(t[k])
    ensures DigitsOf(s) == DigitsOf(t) && Normalize(s) == Normalize(t)
  {
    if s != "" {
      CaseIsIgnored(s[1..], t[1..]);
      assert Lower(s[0]) == Lower(t[0]);
    }
  }

  lemma {:induction false} DigitsOfHex(bytes: seq<Byte>)
    ensures DigitsOf(HexDigits(bytes)) == HexDigits(bytes)
  {
    if bytes != [] {
      var pair := [DIGITS[bytes[0] / 16], DIGITS[bytes[0] % 16]];
      DigitsOfHex(bytes[1..]);
      DigitsOfConcat(pair, HexDigits(bytes[1..]));
      assert forall k :: 0 <= k < 16 ==> IsHexDigit(DIGITS[k]) && Lower(DIGITS[k]) == DIGITS[k];
      assert DigitsOf(pair[1..]) == pair[1..];
      assert DigitsOf(pair) == pair;
    }
  }

  /** Raw bytes survive rendering and parsing. */
  lemma {:induction false} NormalizeHex(g: Guid)
    ensures Normalize(HexDigits(g)) == Some(HexDigits(g))
  {
    DigitsOfHex(g);
  }

  lemma DigitsDiffer(j: int, k: int)
    requires 0 <= j < 16 && 0 <= k < 16 && DIGITS[j] == DIGITS[k]
    ensures j == k
  {
  }

  lemma {:induction false} HexInjective(a: seq<Byte>, b: seq<Byte>)
    requires HexDigits(a) == HexDigits(b)
    ensures a == b
  {
    assert 2 * |a| == 2 * |b|;
    if a != [] {
      var ha, hb := HexDigits(a), HexDigits(b);
      assert ha[0] == DIGITS[a[0] / 16] && hb[0] == DIGITS[b[0] / 16];
      assert ha[1] == DIGITS[a[0] % 16] && hb[1] == DIGITS[b[0] % 16];
      DigitsDiffer(a[0] / 16, b[0] / 16);
      DigitsDiffer(a[0] % 16, b[0] % 16);
      assert ha[2..] == HexDigits(a[1..]) && hb[2..] == HexDigits(b[1..]);
      HexInjective(a[1..], b[1..]);
      assert a == [a[0]] + a[1..] && b == [b[0]] + b[1..];
    }
  }

  lemma {:induction false} HexPlaceholder(bytes: seq<Byte>)
    ensures AllAre(HexDigits(bytes), '0') <==> forall k :: 0 <= k < |bytes| ==> bytes[k] == 0
    ensures AllAre(HexDigits(bytes), 'f') <==> forall k :: 0 <= k < |bytes| ==> bytes[k] == 255
  {
    if bytes != [] {
      var h, b, tail := HexDigits(bytes), bytes[0], bytes[1..];
      HexPlaceholder(tail);
      assert h[0] == DIGITS[b / 16] && h[1] == DIGITS[b % 16] && h[2..] == HexDigits(tail);
      assert forall k :: 0 <= k < 16 ==> (DIGITS[k] == '0' <==> k == 0) && (DIGITS[k] == 'f' <==> k == 15);
      assert forall k :: 2 <= k < |h| ==> h[k] == h[2..][k - 2];
      assert forall k :: 0 <= k < |h| - 2 ==> h[2..][k] == h[k + 2];
      assert forall k :: 1 <= k < |bytes| ==> bytes[k] == tail[k - 1];
      assert forall k :: 0 <= k < |tail| ==> tail[k] == bytes[k + 1];
    }
  }

  // ----- byte orders ------------------------------------------------------------------------

  function Reversed(s: seq<Byte>): (r: seq<Byte>)
    ensures |r| == |s|
  {
    seq(|s|, i requires 0 <= i < |s| => s[|s| - 1 - i])
  }

  function ReversedGuid(g: Guid): Guid { Reversed(g) }

  /** The first three UUID fields between big- and little-endian (section 7.2.1 of DSP0134). */
  function Swapped(g: Guid): Guid {
    Reversed(g[0..4]) + Reversed(g[4..6]) + Reversed(g[6..8]) + g[8..]
  }

  lemma ReversedInvolution(g: Guid)
    ensures ReversedGuid(ReversedGuid(g)) == g
  {
    assert forall i :: 0 <= i < 16 ==> ReversedGuid(ReversedGuid(g))[i] == g[i];
  }

  lemma SwappedInvolution(g: Guid)
    ensures Swapped(Swapped(g)) == g
  {
    var s := Swapped(g);
    assert s[0..4] == Reversed(g[0..4]) && s[4..6] == Reversed(g[4..6]) && s[6..8] == Reversed(g[6..8]);
    assert s[8..] == g[8..];
    assert Reversed(s[0..4]) == g[0..4] && Reversed(s[4..6]) == g[4..6] && Reversed(s[6..8]) == g[6..8];
  }

  predicate Constant(g: Guid, b: Byte) {
    forall k :: 0 <= k < 16 ==> g[k] == b
  }

  predicate Blank(g: Guid) { Constant(g, 0) || Constant(g, 255) }

  /** Placeholders stay placeholders under every byte order, and nothing else becomes one. */
  lemma {:induction false} BlankInvariant(g: Guid)
    ensures Blank(ReversedGuid(g)) <==> Blank(g)
    ensures Blank(Swapped(g)) <==> Blank(g)
    ensures IsPlaceholder(HexDigits(g)) <==> Blank(g)
  {
    HexPlaceholder(g);
    var r, s := ReversedGuid(g), Swapped(g);
    assert forall k :: 0 <= k < 16 ==> r[k] == g[15 - k];
    assert forall k :: 0 <= k < 16 ==> g[k] == r[15 - k];
    assert s == [g[3], g[2], g[1], g[0], g[5], g[4], g[7], g[6]] + g[8..];
    assert g[0] == s[3] && g[1] == s[2] && g[2] == s[1] && g[3] == s[0];
    assert g[4] == s[5] && g[5] == s[4] && g[6] == s[7] && g[7] == s[6];
    assert forall k :: 8 <= k < 16 ==> g[k] == s[k];
  }

  /** Every byte string a BMC may send for the machine whose UUID has the bytes `u`. */
  function Encodings(u: Guid): set<Guid> {
    {u, ReversedGuid(u), Swapped(u), Swapped(ReversedGuid(u)), ReversedGuid(Swapped(u))}
  }

  /** What the raw bytes may mean, in the order the check tries them. */
  function Interpretations(b: Guid): seq<Guid> {
    [b, ReversedGuid(b), Swapped(b), Swapped(ReversedGuid(b)), ReversedGuid(Swapped(b))]
  }

  lemma ReversedFlips(a: Guid, b: Guid)
    ensures a == ReversedGuid(b) <==> b == ReversedGuid(a)
  {
    ReversedInvolution(a);
    ReversedInvolution(b);
  }

  lemma SwappedFlips(a: Guid, b: Guid)
    ensures a == Swapped(b) <==> b == Swapped(a)
  {
    SwappedInvolution(a);
    SwappedInvolution(b);
  }

  lemma CompositionsFlip(a: Guid, b: Guid)
    ensures a == Swapped(ReversedGuid(b)) <==> b == ReversedGuid(Swapped(a))
  {
    SwappedFlips(a, ReversedGuid(b));
    ReversedFlips(Swapped(a), b);
  }

  /** The interpretations undo exactly the encodings. */
  lemma InterpretationsUndoEncodings(b: Guid, u: Guid)
    ensures u in Interpretations(b) <==> b in Encodings(u)
  {
    ReversedFlips(b, u);
    SwappedFlips(b, u);
    CompositionsFlip(b, u);
    CompositionsFlip(u, b);
  }

  // ----- the check --------------------------------------------------------------------------

  function CandidateTexts(b: Guid): seq<string> {
    var i := Interpretations(b);
    [HexDigits(i[0]), HexDigits(i[1]), HexDigits(i[2]), HexDigits(i[3]), HexDigits(i[4])]
  }

  function Rendered(id: SystemId): string {
    match id
    case Uuid(text) => text
    case RawGuid(b) => HexDigits(b)
  }

  function Decide(candidates: seq<string>, reported: SystemId, expected: string): IdentityCheck {
    if forall c <- candidates :: IsPlaceholder(c) then Unverifiable
    else if expected in candidates then Match
    else Mismatch(Rendered(reported), expected)
  }

  function Check(reported: Option<SystemId>, nodeUuid: Option<string>): IdentityCheck {
    if reported.None? || nodeUuid.None? || Normalize(nodeUuid.value).None? then Unverifiable
    else
      var expected := Normalize(nodeUuid.value).value;
      if IsPlaceholder(expected) then Unverifiable
      else
        match reported.value
        case Uuid(text) =>
          (match Normalize(text)
           case None => Unverifiable
           case Some(h) => Decide([h], reported.value, expected))
        case RawGuid(b) => Decide(CandidateTexts(b), reported.value, expected)
  }

  /** A textual UUID matches exactly a Node UUID with the same 32 hex digits, unless they are a placeholder. */
  lemma TextMatchExact(text: string, node: string)
    ensures Check(Some(Uuid(text)), Some(node)) == Match
      <==> Normalize(text).Some? && Normalize(text) == Normalize(node) && !IsPlaceholder(Normalize(text).value)
  {
    if Normalize(text).Some? {
      assert Normalize(text).value in [Normalize(text).value];
    }
  }

  /** The text has 32 hex digits, and they are not all 0 or all f. */
  predicate IsUsable(text: string) {
    && |DigitsOf(text)| == 32
    && (exists k :: 0 <= k < 32 && DigitsOf(text)[k] != '0') && (exists k :: 0 <= k < 32 && DigitsOf(text)[k] != 'f')
  }

  /** The whole answer for a textual UUID: nothing can be said unless both texts are usable; then equal
      digits are a Match, and different ones report another machine, with what was read and what the
      Node has. */
  lemma {:induction false} TextCheckExact(text: string, node: string)
    ensures Check(Some(Uuid(text)), Some(node)) ==
      if !IsUsable(text) || !IsUsable(node) then Unverifiable
      else if DigitsOf(text) == DigitsOf(node) then Match
      else Mismatch(text, DigitsOf(node))
  {
    UsableExact(text);
    UsableExact(node);
    if IsUsable(text) && IsUsable(node) {
      assert [DigitsOf(text)][0] == DigitsOf(text);
    }
  }

  lemma {:induction false} UsableExact(text: string)
    ensures IsUsable(text) <==> Normalize(text).Some? && !IsPlaceholder(Normalize(text).value)
    ensures Normalize(text).Some? ==> Normalize(text).value == DigitsOf(text)
  {
  }

  /** Without an identity on one side, or with a Node UUID that is none, nothing can be said either. */
  lemma NothingToCompare(reported: Option<SystemId>, node: Option<string>)
    requires reported.None? || node.None? || !IsUsable(node.value)
    ensures Check(reported, node) == Unverifiable
  {
    if node.Some? {
      UsableExact(node.value);
    }
  }

  function DigitValue(c: char): (d: int)
    requires '0' <= c <= '9' || 'a' <= c <= 'f'
    ensures 0 <= d < 16 && DIGITS[d] == c
  {
    if c <= '9' then c as int - '0' as int else c as int - 'a' as int + 10
  }

  predicate AllLower(h: string) { forall k :: 0 <= k < |h| ==> '0' <= h[k] <= '9' || 'a' <= h[k] <= 'f' }

  lemma {:induction false} DigitsAreLower(text: string)
    ensures AllLower(DigitsOf(text))
  {
    if text != "" {
      DigitsAreLower(text[1..]);
    }
  }

  function ByteOf(high: nat, low: nat): (b: Byte)
    requires high < 16 && low < 16
    ensures b / 16 == high && b % 16 == low
  {
    16 * high + low
  }

  /** The bytes that hex text stands for. */
  function BytesOf(h: string): (b: seq<Byte>)
    requires AllLower(h) && |h| % 2 == 0
    ensures 2 * |b| == |h|
  {
    if h == "" then [] else [ByteOf(DigitValue(h[0]), DigitValue(h[1]))] + BytesOf(h[2..])
  }

  lemma {:induction false} HexOfBytes(h: string)
    requires AllLower(h) && |h| % 2 == 0
    ensures HexDigits(BytesOf(h)) == h
  {
    if h != "" {
      HexOfBytes(h[2..]);
      HexWith(ByteOf(DigitValue(h[0]), DigitValue(h[1])), BytesOf(h[2..]));
      assert h == [h[0], h[1]] + h[2..];
    }
  }

  lemma {:induction false} HexWith(b: Byte, rest: seq<Byte>)
    ensures HexDigits([b] + rest) == [DIGITS[b / 16], DIGITS[b % 16]] + HexDigits(rest)
  {
    assert ([b] + rest)[1..] == rest;
  }

  /** So every usable Node UUID is that of some 16 bytes, and `RawMatchExact` covers all of them. */
  lemma UsableIsAGuid(node: string) returns (u: Guid)
    requires IsUsable(node)
    ensures Normalize(node) == Some(HexDigits(u)) && !Blank(u)
  {
    DigitsAreLower(node);
    u := BytesOf(DigitsOf(node));
    HexOfBytes(DigitsOf(node));
    UsableExact(node);
    BlankInvariant(u);
  }

  lemma {:induction false} CandidatesAreInterpretations(b: Guid, u: Guid)
    ensures HexDigits(u) in CandidateTexts(b) <==> b in Encodings(u)
  {
    InterpretationsUndoEncodings(b, u);
    var i, c := Interpretations(b), CandidateTexts(b);
    assert forall k :: 0 <= k < 5 ==> c[k] == HexDigits(i[k]);
    if HexDigits(u) in c {
      var k :| 0 <= k < 5 && c[k] == HexDigits(u);
      HexInjective(u, i[k]);
      assert i[k] in i;
    }
    if u in i {
      var k :| 0 <= k < 5 && i[k] == u;
      assert c[k] in c;
    }
  }

  lemma InterpretationsBlankTogether(b: Guid, k: nat)
    requires k < 5
    ensures Blank(Interpretations(b)[k]) <==> Blank(b)
  {
    BlankInvariant(b);
    BlankInvariant(ReversedGuid(b));
    BlankInvariant(Swapped(b));
  }

  lemma CandidatesBlankTogether(b: Guid)
    ensures forall c <- CandidateTexts(b) :: IsPlaceholder(c) <==> Blank(b)
  {
    var i, texts := Interpretations(b), CandidateTexts(b);
    forall k: nat | k < 5 ensures IsPlaceholder(texts[k]) <==> Blank(b) {
      BlankInvariant(i[k]);
      InterpretationsBlankTogether(b, k);
      assert texts[k] == HexDigits(i[k]);
    }
  }

  /** Complete and sound: against the Node of the machine with UUID bytes `u` (however its text is
      punctuated), a raw GUID is a Match exactly when `u` is no placeholder and the GUID is one of
      the five encodings of `u`; otherwise it is reported as another machine, or as unusable. */
  lemma {:induction false} RawMatchExact(b: Guid, u: Guid, node: string)
    requires Normalize(node) == Some(HexDigits(u))
    ensures Check(Some(RawGuid(b)), Some(node)) ==
      if Blank(u) || Blank(b) then Unverifiable
      else if b in Encodings(u) then Match
      else Mismatch(HexDigits(b), HexDigits(u))
  {
    BlankInvariant(u);
    var texts := CandidateTexts(b);
    if !Blank(u) {
      assert Check(Some(RawGuid(b)), Some(node)) == Decide(texts, RawGuid(b), HexDigits(u));
      DecideRaw(texts, b, u);
    }
  }

  lemma {:induction false} DecideRaw(texts: seq<string>, b: Guid, u: Guid)
    requires texts == CandidateTexts(b)
    ensures Decide(texts, RawGuid(b), HexDigits(u)) ==
      if Blank(b) then Unverifiable
      else if b in Encodings(u) then Match
      else Mismatch(HexDigits(b), HexDigits(u))
  {
    CandidatesBlankTogether(b);
    CandidatesAreInterpretations(b, u);
    assert texts[0] in texts;
  }

  /** In particular no byte order hides a machine from its own interface. */
  lemma {:induction false} EveryEncodingMatches(u: Guid, b: Guid)
    requires !Blank(u) && b in Encodings(u)
    ensures Check(Some(RawGuid(b)), Some(HexDigits(u))) == Match
  {
    NormalizeHex(u);
    BlankInvariant(u);
    BlankInvariant(ReversedGuid(u));
    BlankInvariant(Swapped(u));
    RawMatchExact(b, u, HexDigits(u));
  }

  // ----- the same, on byte arrays in place --------------------------------------------------

  function RangeReversed(s: seq<Byte>, lo: nat, hi: nat): (r: seq<Byte>)
    requires lo <= hi <= |s|
    ensures |r| == |s|
    ensures forall k :: 0 <= k < |s| ==> r[k] == if lo <= k < hi then s[lo + hi - 1 - k] else s[k]
  {
    s[..lo] + Reversed(s[lo..hi]) + s[hi..]
  }

  lemma WholeReversed(g: Guid)
    ensures RangeReversed(g, 0, 16) == ReversedGuid(g)
  {
  }

  /** Reversing three ranges one after the other swaps the three fields. */
  lemma SwapIsThreeReversals(g: Guid)
    ensures RangeReversed(RangeReversed(RangeReversed(g, 0, 4), 4, 6), 6, 8) == Swapped(g)
  {
    assert Swapped(g) == [g[3], g[2], g[1], g[0], g[5], g[4], g[7], g[6]] + g[8..];
  }

  /** Reverses `a[lo..hi]` in place. */
  method ReverseRange(a: array<Byte>, lo: nat, hi: nat)
    requires lo <= hi <= a.Length
    modifies a
    ensures a[..] == RangeReversed(old(a[..]), lo, hi)
  {
    var i := 0;
    while i < (hi - lo) / 2
      invariant 0 <= i <= (hi - lo) / 2
      invariant forall k :: 0 <= k < a.Length ==>
        a[k] == if lo <= k < lo + i || hi - i <= k < hi then old(a[lo + hi - 1 - k]) else old(a[k])
    {
      a[lo + i], a[hi - 1 - i] := a[hi - 1 - i], a[lo + i];
      i := i + 1;
    }
    ghost var was := old(a[..]);
    assert forall k :: 0 <= k < a.Length ==> a[..][k] == RangeReversed(was, lo, hi)[k];
  }

  method Copy(b: array<Byte>) returns (o: array<Byte>)
    ensures fresh(o) && o[..] == b[..]
  {
    o := new Byte[b.Length](i requires 0 <= i < b.Length reads b => b[i]);
  }

  method SwapFields(b: array<Byte>) returns (o: array<Byte>)
    requires b.Length == 16
    ensures fresh(o) && o[..] == Swapped(b[..])
  {
    o := Copy(b);
    ReverseRange(o, 0, 4);
    ReverseRange(o, 4, 6);
    ReverseRange(o, 6, 8);
    SwapIsThreeReversals(b[..]);
  }

  method Candidates(b: array<Byte>) returns (texts: seq<string>)
    requires b.Length == 16
    ensures texts == CandidateTexts(b[..])
  {
    var rev := Copy(b);
    ReverseRange(rev, 0, 16);
    WholeReversed(b[..]);
    assert rev[..] == ReversedGuid(b[..]);
    var swap := SwapFields(b);
    var swapOfRev := SwapFields(rev);
    var revOfSwap := SwapFields(b);
    ghost var g := revOfSwap[..];
    ReverseRange(revOfSwap, 0, 16);
    WholeReversed(g);
    assert revOfSwap[..] == ReversedGuid(g);
    texts := [HexDigits(b[..]), HexDigits(rev[..]), HexDigits(swap[..]), HexDigits(swapOfRev[..]),
              HexDigits(revOfSwap[..])];
  }
}
