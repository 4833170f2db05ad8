/** GenData: random row payloads over a fixed 62-character alphabet. The random
    bytes that rand.Read would supply are an input here. */
module Generator {

  newtype byte = x: int | 0 <= x < 256

  const Alphabet: string := "abcdefghijklmnopqrstuvwxyzABCDEFGHIJKLMNOPQRSTUVWXYZ0123456789"

  /** The character one random byte becomes: the alphabet entry at the byte modulo 62. */
  function CharOf(b: byte): (c: char)
    ensures c in Alphabet
  {
    Alphabet[b as int % |Alphabet|]
  }

  /** The payload a sequence of random bytes becomes, one character per byte. */
  function Payload(bytes: seq<byte>): (s: string)
  {
    seq(|bytes|, i requires 0 <= i < |bytes| => CharOf(bytes[i]))
  }

  /** GenData(n) given the n bytes rand.Read produced: fills a rune array of length n
      and returns it as a string. */
  method GenData(b: seq<byte>) returns (s: string)
    ensures |s| == |b|
    ensures forall i :: 0 <= i < |b| ==> s[i] == Alphabet[b[i] as int % 62]
    ensures s == Payload(b)
  {
    var r := new char[|b|];
    for i := 0 to |b|
      invariant forall k :: 0 <= k < i ==> r[k] == CharOf(b[k])
    {
      r[i] := CharOf(b[i]);
    }
    s := r[..];
  }

  /** Every payload character is a letter or a digit from the alphabet. */
  lemma PayloadInAlphabet(bytes: seq<byte>)
    ensures |Payload(bytes)| == |bytes|
    ensures forall i :: 0 <= i < |bytes| ==> Payload(bytes)[i] in Alphabet
  {
  }

  /** Generating two byte runs one after the other is generating their concatenation. */
  lemma PayloadConcat(a: seq<byte>, b: seq<byte>)
    ensures Payload(a + b) == Payload(a) + Payload(b)
  {
  }

  /** The first position of c in a. */
  function IndexOf(a: string, c: char): (k: nat)
    requires c in a
    ensures k < |a| && a[k] == c
  {
    if a[0] == c then 0 else 1 + IndexOf(a[1..], c)
  }

  /** The bytes that make GenData produce a given alphanumeric string. */
  function BytesFor(s: string): (bytes: seq<byte>)
    requires forall i :: 0 <= i < |s| ==> s[i] in Alphabet
  {
    seq(|s|, i requires 0 <= i < |s| => IndexOf(Alphabet, s[i]) as byte)
  }

  lemma ModBelow(x: int, m: int)
    requires 0 <= x < m
    ensures x % m == x
  {
  }

  /** The byte of an alphabet character turns back into that character. */
  lemma CharOfIndex(c: char)
    requires c in Alphabet
    ensures CharOf(IndexOf(Alphabet, c) as byte) == c
  {
    var k := IndexOf(Alphabet, c);
    ModBelow(k, |Alphabet|);
  }

  /** Every string over the alphabet is a possible payload: GenData can produce it. */
  lemma PayloadOnto(s: string)
    requires forall i :: 0 <= i < |s| ==> s[i] in Alphabet
    ensures Payload(BytesFor(s)) == s
  {
    var b := BytesFor(s);
    forall i | 0 <= i < |s|
      ensures Payload(b)[i] == s[i]
    {
      CharOfIndex(s[i]);
    }
  }
}
