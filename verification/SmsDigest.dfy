/** The content digest behind a retry token (sms_policy.c): each field goes into the hash
    behind its length in eight big-endian bytes, so two different requests never feed the
    hash the same bytes. The hash is not modelled. */
module SmsDigest {

  newtype byte = x: int | 0 <= x < 256

  const LENGTH_BYTES: nat := 8
  const LENGTH_LIMIT: nat := 0x1_0000_0000_0000_0000

  function Power256(n: nat): (p: nat)
    ensures p > 0
  {
    if n == 0 then 1 else 256 * Power256(n - 1)
  }

  /** The number whose big-endian digits are `bytes`. */
  function BigEndian(bytes: seq<byte>): nat {
    if bytes == [] then 0 else 256 * BigEndian(bytes[..|bytes| - 1]) + bytes[|bytes| - 1] as nat
  }

  lemma {:induction false} BigEndianCons(b: byte, bytes: seq<byte>)
    ensures BigEndian([b] + bytes) == b as nat * Power256(|bytes|) + BigEndian(bytes)
  {
    if bytes != [] {
      var last := |bytes| - 1;
      assert ([b] + bytes)[..|bytes|] == [b] + bytes[..last];
      BigEndianCons(b, bytes[..last]);
    } else {
      assert ([b] + bytes)[..0] == [];
    }
  }

  lemma OneMoreByte(length: nat, rest: nat, index: nat, low: byte, tail: seq<byte>)
    requires length == rest * Power256(index) + BigEndian(tail) && |tail| == index && low as nat == rest % 256
    ensures length == rest / 256 * Power256(index + 1) + BigEndian([low] + tail)
  {
    BigEndianCons(low, tail);
  }

  /** Fill an eight-byte buffer from its last byte to its first, eight bits at a time. */
  method EncodeLength(length: nat) returns (bytes: seq<byte>)
    requires length < LENGTH_LIMIT
    ensures |bytes| == LENGTH_BYTES && BigEndian(bytes) == length
  {
    var encoded := new byte[LENGTH_BYTES](_ => 0);
    var rest: nat, index := length, 0;
    assert encoded[LENGTH_BYTES..] == [];
    while index < LENGTH_BYTES
      invariant index <= LENGTH_BYTES
      invariant length == rest * Power256(index) + BigEndian(encoded[LENGTH_BYTES - index..])
      invariant rest < Power256(LENGTH_BYTES - index)
    {
      var low := (rest % 256) as byte;
      ghost var tail := encoded[LENGTH_BYTES - index..];
      encoded[LENGTH_BYTES - 1 - index] := low;
      assert encoded[LENGTH_BYTES - 1 - index..] == [low] + tail;
      OneMoreByte(length, rest, index, low, tail);
      rest, index := rest / 256, index + 1;
    }
    bytes := encoded[..];
    assert encoded[0..] == bytes;
  }

  /** `framed` is the length of `field` followed by its bytes. */
  ghost predicate Frames(field: seq<byte>, framed: seq<byte>) {
    |framed| == LENGTH_BYTES + |field| && BigEndian(framed[..LENGTH_BYTES]) == |field| && framed[LENGTH_BYTES..] == field
  }

  method AddField(input: seq<byte>, field: seq<byte>) returns (longer: seq<byte>)
    requires |field| < LENGTH_LIMIT
    ensures |longer| == |input| + LENGTH_BYTES + |field|
    ensures longer[..|input|] == input && Frames(field, longer[|input|..])
  {
    var encoded := EncodeLength(|field|);
    longer := input + encoded + field;
    assert longer[|input|..] == encoded + field;
  }

  /** `input` is what the hash is fed for a request: the domain, then both fields. */
  ghost predicate HashInput(domain: seq<byte>, recipient: seq<byte>, text: seq<byte>, input: seq<byte>) {
    var first := |domain| + LENGTH_BYTES + |recipient|;
    && |input| == first + LENGTH_BYTES + |text|
    && input[..|domain|] == domain
    && Frames(recipient, input[|domain|..first]) && Frames(text, input[first..])
  }

  method RequestInput(domain: seq<byte>, recipient: seq<byte>, text: seq<byte>) returns (input: seq<byte>)
    requires |recipient| < LENGTH_LIMIT && |text| < LENGTH_LIMIT
    ensures HashInput(domain, recipient, text, input)
  {
    var one := AddField(domain, recipient);
    input := AddField(one, text);
    assert input[..|one|][|domain|..] == one[|domain|..];
    assert input[|domain|..|one|] == input[..|one|][|domain|..];
    assert input[..|domain|] == input[..|one|][..|domain|];
  }

  /** Different requests never give the hash the same input. */
  lemma FramingIsInjective(domain: seq<byte>, r: seq<byte>, t: seq<byte>, r': seq<byte>, t': seq<byte>, input: seq<byte>)
    requires HashInput(domain, r, t, input) && HashInput(domain, r', t', input)
    ensures r == r' && t == t'
  {
    var d := |domain|;
    var framed, framed' := input[d..d + LENGTH_BYTES + |r|], input[d..d + LENGTH_BYTES + |r'|];
    assert framed[..LENGTH_BYTES] == input[d..d + LENGTH_BYTES] == framed'[..LENGTH_BYTES];
    assert |r| == |r'|;
    assert r == framed[LENGTH_BYTES..] == framed'[LENGTH_BYTES..] == r';
  }
}
