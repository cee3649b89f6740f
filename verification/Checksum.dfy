/** The RFC 1071 internet checksum and the ICMP echo request built with it (`src/drivers/ping.rs`). */
module Checksum {

  import opened Prelude

  type Word = w: int | 0 <= w < 0x1_0000

  const MAX_U32 := 0xFFFF_FFFF

  /** The longest message whose word sum can never exceed a u32: 65537 words of 0xFFFF. */
  const MAX_SAFE_BYTES := 131074

  function FromBytes(hi: Byte, lo: Byte): Word {
    (hi as int) * 256 + lo
  }

  /** The big-endian 16-bit word at the front of `data`; a trailing odd byte is padded with 0. */
  function FirstWord(data: seq<Byte>): Word
    requires data != []
  {
    FromBytes(data[0], if |data| > 1 then data[1] else 0)
  }

  function Rest(data: seq<Byte>): seq<Byte>
    requires data != []
  {
    if |data| > 1 then data[2..] else []
  }

  /** The exact, unbounded sum of the words of `data`. */
  function WordSum(data: seq<Byte>): nat
    decreases |data|
  {
    if data == [] then 0 else FirstWord(data) + WordSum(Rest(data))
  }

  /** The representative of `sum` in one's complement arithmetic: 0 only for 0, else 1..65535. */
  function OnesComplement(sum: nat): Word {
    if sum == 0 then 0 else 1 + (sum - 1) % 65535
  }

  function ChecksumOf(data: seq<Byte>): Word {
    65535 - OnesComplement(WordSum(data))
  }

  lemma {:induction false} WordSumBound(data: seq<Byte>)
    ensures WordSum(data) <= (|data| + 1) / 2 * 65535
    decreases |data|
  {
    if data != [] {
      WordSumBound(Rest(data));
    }
  }

  /** No accumulation over at most `MAX_SAFE_BYTES` bytes leaves the u32 range. */
  lemma {:induction false} SafeLengthFits(data: seq<Byte>)
    requires |data| <= MAX_SAFE_BYTES
    ensures WordSum(data) <= MAX_U32
  {
    WordSumBound(data);
    assert (|data| + 1) / 2 <= 65537;
  }

  function AllOnes(n: nat): seq<Byte> { seq(n, _ => 255) }

  lemma {:induction false} AllOnesSum(words: nat)
    ensures WordSum(AllOnes(2 * words)) == words * 65535
  {
    if words != 0 {
      AllOnesSum(words - 1);
      assert AllOnes(2 * words)[2..] == AllOnes(2 * (words - 1));
    }
  }

  /** The length bound is tight: two bytes more and the u32 accumulator can overflow. */
  lemma SafeLengthIsTight()
    ensures WordSum(AllOnes(MAX_SAFE_BYTES)) == MAX_U32
    ensures WordSum(AllOnes(MAX_SAFE_BYTES + 2)) > MAX_U32
  {
    AllOnesSum(65537);
    AllOnesSum(65538);
  }

  /** One folding step keeps the one's complement value and shrinks the sum. */
  lemma FoldStep(sum: nat)
    requires sum >= 0x1_0000
    ensures var folded := sum % 0x1_0000 + sum / 0x1_0000;
      folded < sum && OnesComplement(folded) == OnesComplement(sum)
  {
    var hi, lo := sum / 0x1_0000, sum % 0x1_0000;
    var folded := lo + hi;
    assert sum - 1 == (folded - 1) + hi * 65535;
    SameResidue(folded - 1, hi);
  }

  lemma SameResidue(x: nat, k: nat)
    ensures (x + k * 65535) % 65535 == x % 65535
  {
  }

  /** The checksum as the driver computes it: a u32 sum over 16-bit chunks, folded until it fits
      16 bits. The precondition is exactly that the u32 accumulator does not overflow. */
  method ComputeChecksum(data: seq<Byte>) returns (c: Word)
    requires WordSum(data) <= MAX_U32
    ensures c == ChecksumOf(data)
  {
    var sum, left := 0, data;
    while left != []
      invariant sum + WordSum(left) == WordSum(data)
      invariant 0 <= sum <= MAX_U32
      decreases |left|
    {
      sum := sum + FirstWord(left);
      left := Rest(left);
    }
    while sum / 0x1_0000 != 0
      invariant 0 <= sum <= MAX_U32
      invariant OnesComplement(sum) == OnesComplement(WordSum(data))
      decreases sum
    {
      FoldStep(sum);
      sum := sum % 0x1_0000 + sum / 0x1_0000;
    }
    assert OnesComplement(sum) == sum;
    c := 65535 - sum;
  }

  /** `data` with the big-endian word `w` stored at byte offset `at`. */
  function WithWord(data: seq<Byte>, at: nat, w: Word): seq<Byte>
    requires at + 1 < |data|
  {
    data[at := w / 256][at + 1 := w % 256]
  }

  lemma {:induction false} WordSumUpdate(data: seq<Byte>, at: nat, w: Word)
    requires at % 2 == 0 && at + 1 < |data| && data[at] == 0 && data[at + 1] == 0
    ensures WordSum(WithWord(data, at, w)) == WordSum(data) + w
    decreases |data|
  {
    var updated := WithWord(data, at, w);
    if at == 0 {
      assert Rest(updated) == Rest(data);
    } else {
      WordSumUpdate(Rest(data), at - 2, w);
      assert Rest(updated) == WithWord(Rest(data), at - 2, w);
    }
  }

  /** A sum and its one's complement add up to one of the zeros of that arithmetic. */
  lemma ComplementCancels(sum: nat)
    ensures OnesComplement(sum + (65535 - OnesComplement(sum))) == 65535
  {
    if sum > 0 {
      var q, r := (sum - 1) / 65535, (sum - 1) % 65535;
      assert sum + (65535 - OnesComplement(sum)) - 1 == 65534 + q * 65535;
      SameResidue(65534, q);
    }
  }

  lemma {:induction false} SumDecides(message: seq<Byte>, sum: nat)
    requires WordSum(message) == sum
    ensures ChecksumOf(message) == 65535 - OnesComplement(sum)
  {
  }

  lemma {:induction false} CompletedSum(message: seq<Byte>, sum: nat)
    requires WordSum(message) == sum + (65535 - OnesComplement(sum))
    ensures ChecksumOf(message) == 0
  {
    ComplementCancels(sum);
    SumDecides(message, sum + (65535 - OnesComplement(sum)));
  }

  /** Storing the checksum in a zeroed, aligned field makes the checksum of the whole message 0. */
  lemma ChecksumRoundTrip(data: seq<Byte>, at: nat)
    requires at % 2 == 0 && at + 1 < |data| && data[at] == 0 && data[at + 1] == 0
    ensures ChecksumOf(WithWord(data, at, ChecksumOf(data))) == 0
  {
    WordSumUpdate(data, at, ChecksumOf(data));
    SumDecides(data, WordSum(data));
    CompletedSum(WithWord(data, at, ChecksumOf(data)), WordSum(data));
  }

  /** The two forms of one's complement zero. */
  predicate IsZero(w: Word) { w == 0 || w == 65535 }

  lemma SameWord(sum: nat, x: Word, y: Word)
    requires OnesComplement(sum + x) == 65535 && OnesComplement(sum + y) == 65535
    ensures x == y || (IsZero(x) && IsZero(y))
  {
    var a, b := (sum + x - 1) / 65535, (sum + y - 1) / 65535;
    assert sum + x - 1 == a * 65535 + 65534 && sum + y - 1 == b * 65535 + 65534;
    assert x - y == (a - b) * 65535;
  }

  lemma {:induction false} OnlyTheComplement(message: seq<Byte>, sum: nat, w: Word, c: Word)
    requires WordSum(message) == sum + w && ChecksumOf(message) == 0 && c == 65535 - OnesComplement(sum)
    ensures w == c || (IsZero(w) && IsZero(c))
  {
    SumDecides(message, sum + w);
    ComplementCancels(sum);
    SameWord(sum, w, c);
  }

  /** Only the checksum verifies: any other word in the field leaves a non-zero checksum,
      except that 0 and 65535 are the two forms of one's complement zero. */
  lemma ChecksumIsUnique(data: seq<Byte>, at: nat, w: Word)
    requires at % 2 == 0 && at + 1 < |data| && data[at] == 0 && data[at + 1] == 0
    requires ChecksumOf(WithWord(data, at, w)) == 0
    ensures w == ChecksumOf(data) || (IsZero(w) && IsZero(ChecksumOf(data)))
  {
    WordSumUpdate(data, at, w);
    SumDecides(data, WordSum(data));
    OnlyTheComplement(WithWord(data, at, w), WordSum(data), w, ChecksumOf(data));
  }

  /** A message of odd length has the checksum of the same message with a zero byte behind it; and one of
      zeros has all bits set. */
  lemma {:induction false} OddIsPadded(data: seq<Byte>)
    ensures |data| % 2 == 1 ==> ChecksumOf(data + [0]) == ChecksumOf(data)
    ensures (forall k :: 0 <= k < |data| ==> data[k] == 0) ==> ChecksumOf(data) == 65535
  {
    PaddedSum(data);
  }

  lemma {:induction false} PaddedSum(data: seq<Byte>)
    ensures |data| % 2 == 1 ==> WordSum(data + [0]) == WordSum(data)
    ensures (forall k :: 0 <= k < |data| ==> data[k] == 0) ==> WordSum(data) == 0
    decreases |data|
  {
    if |data| > 1 {
      PaddedSum(data[2..]);
      assert (data + [0])[2..] == data[2..] + [0];
    } else if |data| == 1 {
      assert (data + [0])[2..] == [] && WordSum([]) == 0;
    }
  }

  /** The text carried by every echo request. */
  const PAYLOAD: seq<Byte> := [
    107, 117, 98, 101, 45, 104, 97, 114, 100, 119, 97, 114,
    101, 45, 97, 117, 116, 111, 115, 99, 97, 108, 101, 114]

  function BigEndian(w: Word): (bytes: seq<Byte>)
    ensures |bytes| == 2 && FromBytes(bytes[0], bytes[1]) == w
  {
    [w / 256, w % 256]
  }

  const ECHO_REQUEST: Byte := 8
  const ECHO_REPLY: Byte := 0

  /** Builds an ICMP echo request: header with a zero checksum, then the checksum patched in. */
  method EchoRequest(id: Word, seqNo: Word) returns (p: seq<Byte>)
    ensures |p| == 32 && p[0] == 8 && p[1] == 0
    ensures p[4..6] == BigEndian(id) && p[6..8] == BigEndian(seqNo) && p[8..] == PAYLOAD
    ensures ChecksumOf(p) == 0
  {
    p := [ECHO_REQUEST, 0, 0, 0];
    p := p + BigEndian(id);
    p := p + BigEndian(seqNo);
    p := p + PAYLOAD;
    ghost var blank := p;
    SafeLengthFits(p);
    var c := ComputeChecksum(p);
    p := p[2 := c / 256];
    p := p[3 := c % 256];
    assert p == WithWord(blank, 2, c);
    ChecksumRoundTrip(blank, 2);
  }

  predicate IsReply(icmp: seq<Byte>, seqNo: Word) {
    |icmp| >= 8 && icmp[0] == ECHO_REPLY && FromBytes(icmp[6], icmp[7]) == seqNo
  }

  /** A request is never taken for a reply, and an echoed request (type 0, same bytes from the
      identifier on) answers exactly the sequence number it was sent with. */
  lemma RepliesMatchTheirRequest(request: seq<Byte>, reply: seq<Byte>, seqNo: Word, asked: Word)
    requires |request| >= 8 && request[0] == 8 && request[6..8] == BigEndian(seqNo)
    requires |reply| == |request| && reply[0] == 0 && reply[4..] == request[4..]
    ensures !IsReply(request, asked)
    ensures IsReply(reply, asked) <==> asked == seqNo
  {
    assert reply[4..][2] == reply[6] && reply[4..][3] == reply[7];
    assert request[4..][2] == request[6..8][0] && request[4..][3] == request[6..8][1];
  }
}
