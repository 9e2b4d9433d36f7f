/** What two honest parties have done so far, as an outside observer files it: the ratchet
    keys in the order they were made and every packet ever sent, chain by chain.

    Keys alternate. `keys[0]` is the responder's signed prekey, `keys[1]` the initiator's
    first sending key, and each later key is made by the party that first sees its
    predecessor. Chain `j` is what `keys[j]`'s owner sends under that key. */
module History {
  import opened Options
  import opened Symbols
  import opened Ratchet

  datatype Packet = Packet(envelope: Envelope, text: Text)

  datatype History = History(root0: Term, keys: seq<nat>, net: seq<seq<Packet>>)

  ghost predicate Distinct(keys: seq<nat>) {
    keys == [] || (keys[|keys| - 1] !in keys[..|keys| - 1] && Distinct(keys[..|keys| - 1]))
  }

  lemma {:induction false} DistinctAt(keys: seq<nat>, i: nat, j: nat)
    requires Distinct(keys) && i < |keys| && j < |keys|
    ensures keys[i] == keys[j] <==> i == j
  {
    var last := |keys| - 1;
    if i < last && j < last {
      DistinctAt(keys[..last], i, j);
    } else if i != j {
      assert keys[if i < j then i else j] in keys[..last];
    }
  }

  ghost predicate Shape(h: History) {
    && |h.keys| >= 2
    && |h.net| == |h.keys|
    && h.net[0] == []
    && Distinct(h.keys)
  }

  /** The DH output that opens chain j. */
  function Link(keys: seq<nat>, j: nat): Term
    requires 1 <= j < |keys|
  {
    Agree(Priv(keys[j]), Pub(keys[j - 1]))
  }

  /** The root key after j DH ratchet steps. */
  function RootAt(root0: Term, keys: seq<nat>, j: nat): Term
    requires j < |keys|
  {
    if j == 0 then root0 else RootKey(RootAt(root0, keys, j - 1), Link(keys, j))
  }

  /** The first chain key of chain j. */
  function ChainStart(h: History, j: nat): Term
    requires 1 <= j < |h.keys|
  {
    ChainKey(RootAt(h.root0, h.keys, j - 1), Link(h.keys, j))
  }

  function KeyOf(h: History, j: nat, n: nat): Term
    requires 1 <= j < |h.keys|
  {
    MessageKey(ChainAt(ChainStart(h, j), n))
  }

  /** How long the sender's chain before chain j was. */
  function PrevLength(h: History, j: nat): nat
    requires j < |h.net|
  {
    if j < 2 then 0 else |h.net[j - 2]|
  }

  function HeaderOf(h: History, j: nat, n: nat): Header
    requires j < |h.keys| == |h.net|
  {
    Header(Pub(h.keys[j]), PrevLength(h, j), n)
  }

  /** The packet for message n of chain j is the one an honest sender makes. */
  ghost predicate HonestPacket(h: History, j: nat, n: nat)
    requires 1 <= j < |h.keys| == |h.net| && n < |h.net[j]|
  {
    var hd := HeaderOf(h, j, n);
    h.net[j][n].envelope == Envelope(hd, Seal(KeyOf(h, j, n), SerializeHeader(hd), h.net[j][n].text))
  }

  ghost predicate Honest(h: History)
    requires Shape(h)
  {
    forall j, n :: 1 <= j < |h.net| && 0 <= n < |h.net[j]| ==> HonestPacket(h, j, n)
  }

  function Depth(t: Term): nat {
    if t.RootKey? then 1 + Depth(t.root) else 0
  }

  lemma {:induction false} RootDepth(root0: Term, keys: seq<nat>, j: nat)
    requires j < |keys|
    ensures Depth(RootAt(root0, keys, j)) == Depth(root0) + j
  {
    if j > 0 {
      RootDepth(root0, keys, j - 1);
    }
  }

  /** Every ratchet step yields a root never seen before. */
  lemma RootsDiffer(root0: Term, keys: seq<nat>, i: nat, j: nat)
    requires i < |keys| && j < |keys| && i != j
    ensures RootAt(root0, keys, i) != RootAt(root0, keys, j)
  {
    RootDepth(root0, keys, i);
    RootDepth(root0, keys, j);
  }

  /** Distinct messages have distinct keys. */
  lemma KeysDiffer(h: History, j: nat, n: nat, j': nat, n': nat)
    requires 1 <= j < |h.keys| && 1 <= j' < |h.keys|
    ensures KeyOf(h, j, n) == KeyOf(h, j', n') <==> j == j' && n == n'
  {
    if KeyOf(h, j, n) == KeyOf(h, j', n') {
      ChainInjective(RootAt(h.root0, h.keys, j - 1), Link(h.keys, j), n,
                     RootAt(h.root0, h.keys, j' - 1), Link(h.keys, j'), n');
      if j != j' {
        RootsDiffer(h.root0, h.keys, j - 1, j' - 1);
      }
    }
  }

  lemma {:induction false} RootPrefix(root0: Term, keys: seq<nat>, more: seq<nat>, j: nat)
    requires j < |keys|
    ensures RootAt(root0, keys + more, j) == RootAt(root0, keys, j)
  {
    if j > 0 {
      RootPrefix(root0, keys, more, j - 1);
    }
  }

  /** h' is h with later keys and packets added. */
  ghost predicate Extends(h: History, h': History) {
    && h'.root0 == h.root0
    && |h.net| == |h.keys| <= |h'.keys| == |h'.net|
    && h'.keys[..|h.keys|] == h.keys
    && (forall j :: 0 <= j < |h.net| ==> h.net[j] <= h'.net[j])
  }

  lemma ExtendsKeyOf(h: History, h': History, j: nat, n: nat)
    requires Extends(h, h') && 1 <= j < |h.keys|
    ensures ChainStart(h', j) == ChainStart(h, j)
    ensures KeyOf(h', j, n) == KeyOf(h, j, n)
    ensures RootAt(h'.root0, h'.keys, j) == RootAt(h.root0, h.keys, j)
    ensures RootAt(h'.root0, h'.keys, j - 1) == RootAt(h.root0, h.keys, j - 1)
  {
    var more := h'.keys[|h.keys|..];
    assert h'.keys == h.keys + more;
    RootPrefix(h.root0, h.keys, more, j - 1);
    RootPrefix(h.root0, h.keys, more, j);
  }
}
