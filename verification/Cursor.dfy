/** Reading integers and sized blobs off the front of a byte string, and the reader that walks a
    position through it. */
module Cursor {
  import opened Wrappers
  import opened Bytes

  type Read<T> = Option<(T, seq<byte>)>

  function TakeBytes(b: seq<byte>, n: nat): Read<seq<byte>> {
    if n > |b| then None else Some((b[..n], b[n..]))
  }

  function ReadNumber(b: seq<byte>, k: nat): Read<nat> {
    var r :- TakeBytes(b, k);
    Some((FromBe(r.0), r.1))
  }

  function ReadU64(b: seq<byte>): Read<u64> {
    var n :- ReadNumber(b, 8);
    PowersOf256();
    Some((n.0, n.1))
  }

  /** A 16-bit size, then that many bytes. */
  function ReadBlob(b: seq<byte>): Read<seq<byte>> {
    var n :- ReadNumber(b, 2);
    TakeBytes(n.1, n.0)
  }

  /** The size is cut to 16 bits, as the encoders cut it. */
  function EncodeBlob(v: seq<byte>): seq<byte> {
    ToBe(|v|, 2) + v
  }

  const BLOB_LIMIT := 0x1_0000

  lemma NumberRoundTrip(n: nat, k: nat, rest: seq<byte>)
    requires n < Pow256(k)
    ensures ReadNumber(ToBe(n, k) + rest, k) == Some((n, rest))
  {
    FromBeToBe(n, k);
    assert (ToBe(n, k) + rest)[..k] == ToBe(n, k) && (ToBe(n, k) + rest)[k..] == rest;
  }

  lemma {:induction false} NumberCanonical(b: seq<byte>, k: nat)
    requires ReadNumber(b, k).Some?
    ensures var (n, rest) := ReadNumber(b, k).value; n < Pow256(k) && b == ToBe(n, k) + rest
  {
    var (n, rest) := ReadNumber(b, k).value;
    assert ToBe(n, k) == b[..k] by { ToBeFromBe(b[..k]); }
    assert b == b[..k] + rest;
  }

  lemma BlobRoundTrip(v: seq<byte>, rest: seq<byte>)
    requires |v| < BLOB_LIMIT
    ensures ReadBlob(EncodeBlob(v) + rest) == Some((v, rest))
  {
    PowersOf256();
    assert EncodeBlob(v) + rest == ToBe(|v|, 2) + (v + rest);
    NumberRoundTrip(|v|, 2, v + rest);
    assert (v + rest)[..|v|] == v && (v + rest)[|v|..] == rest;
  }

  lemma BlobCanonical(b: seq<byte>)
    requires ReadBlob(b).Some?
    ensures var (v, rest) := ReadBlob(b).value; |v| < BLOB_LIMIT && b == EncodeBlob(v) + rest
  {
    PowersOf256();
    NumberCanonical(b, 2);
    var (n, r) := ReadNumber(b, 2).value;
    assert r == r[..n] + r[n..];
    assert b == ToBe(n, 2) + (r[..n] + r[n..]) == (ToBe(n, 2) + r[..n]) + r[n..];
  }

  /** What was read before, in front of what is read next. */
  function Appended<T>(done: seq<T>, more: Read<seq<T>>): Read<seq<T>> {
    match more
    case Some(m) => Some((done + m.0, m.1))
    case None => None
  }

  lemma AppendNothing<T>(more: Read<seq<T>>)
    ensures Appended([], more) == more
  {
    if more.Some? { assert [] + more.value.0 == more.value.0; }
  }

  class Reader {
    const b: seq<byte>
    var pos: nat

    constructor (b: seq<byte>)
      ensures this.b == b && Valid() && Remaining() == b
    {
      this.b := b;
      pos := 0;
    }

    predicate Valid()
      reads this
    {
      pos <= |b|
    }

    function Remaining(): seq<byte>
      requires Valid()
      reads this
    {
      b[pos..]
    }

    method Take(n: nat) returns (r: Option<seq<byte>>)
      requires Valid()
      modifies this
      ensures Valid()
      ensures match TakeBytes(old(Remaining()), n)
              case Some(p) => r == Some(p.0) && Remaining() == p.1
              case None => r == None && pos == old(pos)
    {
      if pos + n > |b| { return None; }
      assert Remaining()[..n] == b[pos..pos + n] && Remaining()[n..] == b[pos + n..];
      r := Some(b[pos..pos + n]);
      pos := pos + n;
    }

    method Number(k: nat) returns (r: Option<nat>)
      requires Valid()
      modifies this
      ensures Valid()
      ensures match ReadNumber(old(Remaining()), k)
              case Some(p) => r == Some(p.0) && Remaining() == p.1
              case None => r == None && pos == old(pos)
    {
      var x := Take(k);
      if x == None { return None; }
      r := Some(FromBe(x.value));
    }

    method U64() returns (r: Option<u64>)
      requires Valid()
      modifies this
      ensures Valid()
      ensures match ReadU64(old(Remaining()))
              case Some(p) => r == Some(p.0) && Remaining() == p.1
              case None => r == None && pos == old(pos)
    {
      var n := Number(8);
      if n == None { return None; }
      PowersOf256();
      r := Some(n.value);
    }

    method Blob() returns (r: Option<seq<byte>>)
      requires Valid()
      modifies this
      ensures Valid()
      ensures match ReadBlob(old(Remaining()))
              case Some(p) => r == Some(p.0) && Remaining() == p.1
              case None => r == None
    {
      var n := Number(2);
      if n == None { return None; }
      r := Take(n.value);
    }
  }
}
