/** Byte buffers: runs at a position, overwriting, and copying between arrays. */
module Bytes {

  newtype byte = x: int | 0 <= x < 256

  // A run of zero bytes.
  function Zeros(n: nat): (zeros: seq<byte>)
    ensures |zeros| == n && forall i :: 0 <= i < n ==> zeros[i] == 0
  {
    seq(n, i => 0 as byte)
  }

  // Bytes start..start + n are `piece`.
  ghost predicate At(bytes: seq<byte>, start: nat, piece: seq<byte>) {
    start + |piece| <= |bytes| && bytes[start..start + |piece|] == piece
  }

  // `piece` written over the bytes from `at` on.
  function Spliced(bytes: seq<byte>, at: nat, piece: seq<byte>): (spliced: seq<byte>)
    requires at + |piece| <= |bytes|
    ensures |spliced| == |bytes|
  {
    bytes[..at] + piece + bytes[at + |piece|..]
  }

  lemma SplicedAt(bytes: seq<byte>, at: nat, piece: seq<byte>)
    requires at + |piece| <= |bytes|
    ensures At(Spliced(bytes, at, piece), at, piece)
  {
  }

  lemma SplicedKeeps(bytes: seq<byte>, at: nat, piece: seq<byte>, start: nat, other: seq<byte>)
    requires at + |piece| <= |bytes| && At(bytes, start, other)
    requires start + |other| <= at || at + |piece| <= start
    ensures At(Spliced(bytes, at, piece), start, other)
  {
    var after := Spliced(bytes, at, piece);
    assert forall x :: start <= x < start + |other| ==> after[x] == bytes[x];
    assert after[start..start + |other|] == bytes[start..start + |other|];
  }

  // Copies n bytes; the rest of the target is untouched.
  method CopyBytes(target: array<byte>, at: nat, source: array<byte>, from: nat, n: nat)
    requires target != source && at + n <= target.Length && from + n <= source.Length
    modifies target
    ensures target[..] == Spliced(old(target[..]), at, source[from..from + n])
  {
    for i := 0 to n
      invariant target[at..at + i] == source[from..from + i]
      invariant target[..at] == old(target[..at]) && target[at + i..] == old(target[at + i..])
    {
      target[at + i] := source[from + i];
    }
    assert target[..] == target[..at] + target[at..at + n] + target[at + n..];
    assert old(target[..])[..at] == old(target[..at]) && old(target[..])[at + n..] == old(target[at + n..]);
  }

  // Copies a known run of bytes to the front of the target.
  method CopyOut(target: array<byte>, source: array<byte>, from: nat, n: nat, ghost piece: seq<byte>)
    requires target != source && n <= target.Length && from + n <= source.Length && source[from..from + n] == piece
    modifies target
    ensures target[..] == piece + old(target[..])[n..]
  {
    CopyBytes(target, 0, source, from, n);
  }

  // Copies a known run of bytes from the front of the source.
  method CopyIn(target: array<byte>, at: nat, source: array<byte>, n: nat, ghost piece: seq<byte>)
    requires target != source && at + n <= target.Length && n <= source.Length && source[..n] == piece
    modifies target
    ensures target[..] == Spliced(old(target[..]), at, piece)
  {
    assert source[0..0 + n] == piece;
    CopyBytes(target, at, source, 0, n);
  }

  method ZeroFrom(target: array<byte>, at: nat)
    requires at <= target.Length
    modifies target
    ensures target[..] == old(target[..at]) + Zeros(target.Length - at)
  {
    for i := at to target.Length
      invariant forall x :: 0 <= x < at ==> target[x] == old(target[x])
      invariant forall x :: at <= x < i ==> target[x] == 0
    {
      target[i] := 0;
    }
  }
}
