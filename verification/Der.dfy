/** The canonical tag-length-value reader behind the Linux CMS check
    (build-camoufox-host-package.py, `take`), and the DER printer it inverts:
    X.690 section 8.1.3 (length octets) as restricted by section 10.1. */
module Der {

  type Byte = b: int | 0 <= b < 256
  type Bytes = seq<Byte>

  /** Contents of 2^32 octets and more need five length octets, which the reader refuses. */
  const LENGTH_LIMIT: nat := 0x1_0000_0000

  datatype DerError = InvalidStructure | InvalidLength | LengthNotCanonical | Truncated

  datatype Taken = Taken(content: Bytes, rest: Bytes) | Refused(error: DerError)

  // ---- big-endian numbers ------------------------------------------------

  function BigEndian(bs: Bytes): nat {
    if bs == [] then 0 else 256 * BigEndian(bs[..|bs| - 1]) + bs[|bs| - 1]
  }

  /** The base-256 digits of n, most significant first, no leading zero. */
  function MinimalOctets(n: nat): Bytes {
    if n == 0 then [] else MinimalOctets(n / 256) + [n % 256]
  }

  lemma {:induction false} OctetsDenote(n: nat)
    ensures BigEndian(MinimalOctets(n)) == n
    ensures n > 0 ==> MinimalOctets(n) != [] && MinimalOctets(n)[0] != 0
  {
    if n > 0 {
      OctetsDenote(n / 256);
      var bs := MinimalOctets(n);
      assert bs[..|bs| - 1] == MinimalOctets(n / 256);
    }
  }

  lemma {:induction false} OctetsUnique(bs: Bytes)
    requires bs != [] ==> bs[0] != 0
    ensures MinimalOctets(BigEndian(bs)) == bs
    ensures bs != [] ==> BigEndian(bs) > 0
  {
    if bs != [] {
      var front := bs[..|bs| - 1];
      OctetsUnique(front);
      assert BigEndian(bs) / 256 == BigEndian(front);
      assert bs == front + [bs[|bs| - 1]];
    }
  }

  function Power256(k: nat): (p: nat)
    ensures p > 0
  {
    if k == 0 then 1 else 256 * Power256(k - 1)
  }

  lemma {:induction false} OctetCount(n: nat, k: nat)
    ensures |MinimalOctets(n)| <= k <==> n < Power256(k)
  {
    if k > 0 && n > 0 {
      OctetCount(n / 256, k - 1);
    }
  }

  lemma FourOctets(n: nat)
    ensures |MinimalOctets(n)| <= 4 <==> n < LENGTH_LIMIT
  {
    OctetCount(n, 4);
    assert Power256(2) == 65536;
    assert Power256(4) == LENGTH_LIMIT;
  }

  // ---- printer -----------------------------------------------------------

  function EncodeLength(n: nat): Bytes
    requires n < LENGTH_LIMIT
  {
    if n < 128 then [n]
    else
      FourOctets(n);
      [128 + |MinimalOctets(n)|] + MinimalOctets(n)
  }

  function Encode(tag: Byte, content: Bytes): (tlv: Bytes)
    requires |content| < LENGTH_LIMIT
    ensures |content| + 2 <= |tlv|
  {
    [tag] + EncodeLength(|content|) + content
  }

  // ---- reader ------------------------------------------------------------

  function Split(data: Bytes, header: nat, length: nat): Taken
  {
    if header + length > |data| then Refused(Truncated)
    else Taken(data[header..header + length], data[header + length..])
  }

  /** `take(data, tag)`. The low seven bits of a length octet of 128 or more are its value modulo 128. */
  function Take(data: Bytes, tag: Byte): Taken {
    if |data| < 2 || data[0] != tag then Refused(InvalidStructure)
    else if data[1] < 128 then Split(data, 2, data[1])
    else
      var count := data[1] % 128;
      if count == 0 || count > 4 || |data| < 2 + count || data[2] == 0 then Refused(InvalidLength)
      else
        var length := BigEndian(data[2..2 + count]);
        if length < 128 then Refused(LengthNotCanonical)
        else Split(data, 2 + count, length)
  }

  lemma LongForm(tag: Byte, octets: Bytes, content: Bytes, rest: Bytes)
    requires 0 < |octets| <= 4 && octets[0] != 0 && BigEndian(octets) == |content| >= 128
    ensures Take([tag, 128 + |octets|] + octets + content + rest, tag) == Taken(content, rest)
  {
    hide BigEndian;
    var data := [tag, 128 + |octets|] + octets + content + rest;
    assert data[2..2 + |octets|] == octets;
    assert Split(data, 2 + |octets|, |content|) == Taken(content, rest);
  }

  /** Reading undoes printing, whatever follows. */
  lemma TakeEncode(tag: Byte, content: Bytes, rest: Bytes)
    requires |content| < LENGTH_LIMIT
    ensures Take(Encode(tag, content) + rest, tag) == Taken(content, rest)
  {
    var n := |content|;
    if n < 128 {
      assert Encode(tag, content) + rest == [tag, n] + content + rest;
    } else {
      FourOctets(n);
      OctetsDenote(n);
      LongForm(tag, MinimalOctets(n), content, rest);
      assert Encode(tag, content) + rest == [tag, 128 + |MinimalOctets(n)|] + MinimalOctets(n) + content + rest;
    }
  }

  lemma LongLength(octets: Bytes)
    requires 0 < |octets| <= 4 && octets[0] != 0 && BigEndian(octets) >= 128
    ensures BigEndian(octets) < LENGTH_LIMIT
    ensures EncodeLength(BigEndian(octets)) == [128 + |octets|] + octets
  {
    OctetsUnique(octets);
    FourOctets(BigEndian(octets));
  }

  /** Printing undoes reading: whatever is read was printed by `Encode`, and nothing longer than the limit is. */
  lemma TakeIsPrinted(data: Bytes, tag: Byte)
    requires Take(data, tag).Taken?
    ensures |Take(data, tag).content| < LENGTH_LIMIT
    ensures data == Encode(tag, Take(data, tag).content) + Take(data, tag).rest
  {
    var Taken(content, rest) := Take(data, tag);
    if data[1] < 128 {
      assert data == [tag] + [data[1]] + content + rest;
    } else {
      var octets := data[2..2 + data[1] % 128];
      LongLength(octets);
      assert EncodeLength(|content|) == [data[1]] + octets;
      assert data == [tag] + ([data[1]] + octets) + content + rest;
    }
  }

  /** DER is deterministic: a prefix of the input has at most one reading as a printed value. */
  lemma EncodingsAreUnique(tag: Byte, content: Bytes, rest: Bytes, tag': Byte, content': Bytes, rest': Bytes)
    requires |content| < LENGTH_LIMIT && |content'| < LENGTH_LIMIT
    requires Encode(tag, content) + rest == Encode(tag', content') + rest'
    ensures tag == tag' && content == content' && rest == rest'
  {
    hide EncodeLength;
    assert (Encode(tag, content) + rest)[0] == tag && (Encode(tag', content') + rest')[0] == tag';
    TakeEncode(tag, content, rest);
    TakeEncode(tag', content', rest');
  }

  /** Which inputs the reader accepts, without reference to how it reads them. */
  lemma TakenIffPrinted(data: Bytes, tag: Byte, content: Bytes, rest: Bytes)
    ensures Take(data, tag) == Taken(content, rest)
       <==> |content| < LENGTH_LIMIT && data == Encode(tag, content) + rest
  {
    if Take(data, tag).Taken? { TakeIsPrinted(data, tag); }
    if |content| < LENGTH_LIMIT { TakeEncode(tag, content, rest); }
  }
}
