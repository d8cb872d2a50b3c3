/** Reading and writing bytes and little-endian numbers (protocol/serializable.go). A reader is the bytes it
    has left. */
module Wire {
  import opened Wrappers
  import opened Bits

  type Bytes = seq<Byte>

  function Zeros(n: nat): Bytes { seq(n, _ => 0) }

  /** As many bytes as were asked for, zeros in place of those that are missing. */
  function PadTo(bytes: Bytes, n: nat): (r: Bytes)
    requires |bytes| <= n
    ensures |r| == n
  {
    bytes + Zeros(n - |bytes|)
  }

  /** Reading stops with an error only at the very end of the input; a short read is padded with zeros. */
  function ReadBytes(src: Bytes, n: nat): (r: Option<(Bytes, Bytes)>)
    ensures r.Some? ==> |r.value.0| == n
  {
    if n == 0 then Some(([], src))
    else if |src| == 0 then None
    else if |src| < n then Some((PadTo(src, n), []))
    else Some((src[..n], src[n..]))
  }

  lemma ReadWritten(bytes: Bytes, rest: Bytes)
    ensures ReadBytes(bytes + rest, |bytes|) == Some((bytes, rest))
  {
    assert (bytes + rest)[..|bytes|] == bytes && (bytes + rest)[|bytes|..] == rest;
  }

  /** A read cut short is refused only when nothing at all is left. */
  lemma ReadCut(bytes: Bytes, n: nat)
    requires n < |bytes|
    ensures ReadBytes(bytes[..n], |bytes|) == if n == 0 then None else Some((PadTo(bytes[..n], |bytes|), []))
  {
  }

  /** A number needs all its bytes. */
  function ReadNumber(src: Bytes, width: nat): Option<(nat, Bytes)> {
    if |src| < width then None else Some((Number(src[..width]), src[width..]))
  }

  /** Only the low bytes of a number that is too large are written. */
  function PutNumber(n: nat, width: nat): (r: Bytes)
    ensures |r| == width
  {
    PowerPositive(width);
    Digits(n % Power(256, width), width)
  }

  lemma {:induction false} PowerPositive(width: nat)
    ensures Power(256, width) > 0
  {
    if width > 0 {
      PowerPositive(width - 1);
    }
  }

  lemma NumberRoundTrip(n: nat, width: nat, rest: Bytes)
    ensures Power(256, width) > 0
            && ReadNumber(PutNumber(n, width) + rest, width) == Some((n % Power(256, width), rest))
  {
    PowerPositive(width);
    var head := PutNumber(n, width);
    NumberOfDigits(n % Power(256, width), width);
    ReadHead(head, n % Power(256, width), rest);
  }

  lemma ReadHead(head: Bytes, n: nat, rest: Bytes)
    requires Number(head) == n
    ensures ReadNumber(head + rest, |head|) == Some((n, rest))
  {
    assert (head + rest)[..|head|] == head && (head + rest)[|head|..] == rest;
  }

  lemma Together(a: Bytes, b: Bytes, c: Bytes)
    ensures (a + b) + c == a + (b + c)
  {
  }
}
