/** Byte buffers on the heap and the primitives that fill, copy, compare and scrub them. A
    32-byte buffer holds a term when its bytes are the term's bytes. */
module Buffers {
  import opened Options
  import opened Symbols

  type Buffer = array<Octet>
  type OptBuffer = array?<Octet>

  ghost predicate Holds(b: Buffer, t: Term)
    reads b
  {
    b.Length == KEY_LENGTH && forall i :: 0 <= i < KEY_LENGTH ==> b[i] == Of(t, i)
  }

  ghost predicate OptHolds(b: OptBuffer, t: Option<Term>)
    reads if b == null then {} else {b}
  {
    if b == null then t.None? else t.Some? && Holds(b, t.value)
  }

  /** Any buffer there is: what the quantifiers over new buffers range over. */
  ghost predicate Any(x: Buffer) {
    true
  }

  /** What a primitive returns: a new buffer with a term's bytes. */
  method Allocate(t: Term) returns (b: Buffer)
    ensures fresh(b) && Holds(b, t)
    ensures forall x: Buffer :: Any(x) && fresh(x) ==> x == b
  {
    b := new Octet[KEY_LENGTH](i requires 0 <= i => Of(t, i));
  }

  /** The term in a buffer that holds one. */
  method Read(b: Buffer, ghost t: Term) returns (r: Term)
    requires Holds(b, t)
    ensures r == t
    ensures forall x: Buffer :: Any(x) ==> !fresh(x)
  {
    r := b[0].t;
  }

  method Copy(b: Buffer, ghost t: Term) returns (c: Buffer)
    requires Holds(b, t)
    ensures fresh(c) && Holds(c, t)
    ensures forall x: Buffer :: Any(x) && fresh(x) ==> x == c
  {
    c := new Octet[b.Length](i requires 0 <= i < b.Length reads b => b[i]);
  }

  /** X25519 on two buffers. */
  method SharedSecret(priv: Buffer, pub: Buffer, ghost a: Term, ghost b: Term) returns (out: Buffer)
    requires Holds(priv, a) && Holds(pub, b)
    ensures fresh(out) && Holds(out, Agree(a, b))
    ensures forall x: Buffer :: Any(x) && fresh(x) ==> x == out
  {
    var scalar := Read(priv, a);
    var point := Read(pub, b);
    out := Allocate(Agree(scalar, point));
  }

  /** Nothing of what the buffer held is left. */
  ghost predicate Scrubbed(b: Buffer)
    reads b
  {
    forall i :: 0 <= i < b.Length ==> b[i] == Lit(0)
  }

  /** The buffer holds a byte of a chain key in front. */
  ghost predicate HoldsChainKey(x: Buffer)
    reads x
  {
    x.Length > 0 && x[0].Of? && IsChainKey(x[0].t)
  }

  ghost predicate IsChainKey(t: Term) {
    t.ChainKey? || t.NextChain?
  }

  method Fill0(b: Buffer)
    modifies b
    ensures Scrubbed(b)
    ensures forall x: Buffer :: Any(x) ==> !fresh(x)
  {
    var i := 0;
    while i < b.Length
      invariant 0 <= i <= b.Length
      invariant forall k :: 0 <= k < i ==> b[k] == Lit(0)
      invariant forall x: Buffer :: Any(x) ==> !fresh(x)
    {
      b[i] := Lit(0);
      i := i + 1;
    }
  }

  method BytesEqual(a: Buffer, b: Buffer) returns (same: bool)
    ensures same <==> a[..] == b[..]
    ensures forall x: Buffer :: Any(x) ==> !fresh(x)
  {
    if a.Length != b.Length {
      return false;
    }
    var i := 0;
    while i < a.Length
      invariant 0 <= i <= a.Length
      invariant a[..i] == b[..i] && forall x: Buffer :: Any(x) ==> !fresh(x)
    {
      if a[i] != b[i] {
        assert a[..][i] != b[..][i];
        return false;
      }
      i := i + 1;
    }
    assert a[..] == a[..a.Length] && b[..] == b[..a.Length];
    return true;
  }

  lemma HoldsBytes(b: Buffer, t: Term)
    requires Holds(b, t)
    ensures b[..] == Bytes(t)
  {
  }

  /** Two buffers that hold terms are equal exactly when the terms are. */
  lemma HoldSame(a: Buffer, t: Term, b: Buffer, u: Term)
    requires Holds(a, t) && Holds(b, u)
    ensures a[..] == b[..] <==> t == u
  {
    HoldsBytes(a, t);
    HoldsBytes(b, u);
    if a[..] == b[..] {
      BytesInjective(t, u);
    }
  }
}
