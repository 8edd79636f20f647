/** gateway/server.go, `pickShard`: FNV-1a 32 over the bytes of the key, reduced to one of four shards. */
module ShardHash {

  newtype byte = x: int | 0 <= x < 256

  type Bytes = seq<byte>

  type Shard = n: int | 0 <= n < 4

  const OFFSET_BASIS: bv32 := 2166136261
  const PRIME: bv32 := 16777619

  /** One round of FNV-1a: exclusive-or the byte in, then multiply modulo 2^32. */
  function Round(h: bv32, b: byte): bv32 {
    (h ^ (b as bv32)) * PRIME
  }

  /** The 32-bit FNV-1a digest of the key, folded from the left. */
  function Fnv1a(key: Bytes): bv32 {
    if key == [] then OFFSET_BASIS else Round(Fnv1a(key[..|key| - 1]), key[|key| - 1])
  }

  /** The ring index: the digest widened to a 64-bit int, modulo the four shards. */
  function PickShard(key: Bytes): Shard {
    ((Fnv1a(key) as bv64) % 4) as int
  }

  lemma KnownRounds()
    ensures Round(0x811c9dc5, 97) == 0xe40c292c
    ensures Round(0x811c9dc5, 102) == 0xe30c2799
    ensures Round(0xe30c2799, 111) == 0x6222e842
    ensures Round(0x6222e842, 111) == 0xa9f37ed7
    ensures Round(0xa9f37ed7, 98) == 0x3f5076ef
    ensures Round(0x3f5076ef, 97) == 0x39aaa18a
    ensures Round(0x39aaa18a, 114) == 0xbf9cf968
  {
  }

  /** Digests that draft-eastlake-fnv lists, of "", "a" and "foobar". */
  lemma KnownDigests()
    ensures Fnv1a([]) == 0x811c9dc5 && Fnv1a([97]) == 0xe40c292c
    ensures Fnv1a([102, 111, 111, 98, 97, 114]) == 0xbf9cf968
  {
    KnownRounds();
    hide Round;
    DigestStep([], 97);
    DigestStep([], 102);
    DigestStep([102], 111);
    DigestStep([102, 111], 111);
    DigestStep([102, 111, 111], 98);
    DigestStep([102, 111, 111, 98], 97);
    DigestStep([102, 111, 111, 98, 97], 114);
    hide Fnv1a;
    assert [] + [97] == [97] && [] + [102] == [102] && [102] + [111] == [102, 111];
    assert [102, 111] + [111] == [102, 111, 111] && [102, 111, 111] + [98] == [102, 111, 111, 98];
    assert [102, 111, 111, 98] + [97] == [102, 111, 111, 98, 97];
    assert [102, 111, 111, 98, 97] + [114] == [102, 111, 111, 98, 97, 114];
  }

  lemma DigestStep(key: Bytes, b: byte)
    ensures Fnv1a([]) == OFFSET_BASIS && Fnv1a(key + [b]) == Round(Fnv1a(key), b)
  {
    assert (key + [b])[..|key|] == key;
  }

  // ---- the two-bit automaton behind the digest --------------------------------

  /** Exclusive-or of two two-bit numbers, by arithmetic. */
  function Xor(a: Shard, b: Shard): Shard {
    if a == b then 0 else if a == 0 then b else if b == 0 then a else 6 - a - b
  }

  /** One transition: 3 * (s xor (b mod 4)) modulo 4. */
  function Turn(s: Shard, b: byte): Shard {
    3 * Xor(s, (b % 4) as int) % 4
  }

  function Automaton(key: Bytes): Shard {
    if key == [] then 1 else Turn(Automaton(key[..|key| - 1]), key[|key| - 1])
  }

  /** Exclusive-or and multiplication modulo 2^32 send no information from higher bits to lower ones. */
  lemma LowBitsOfRound(h: bv32, x: bv32)
    ensures (((h ^ x) * PRIME) & 3) as bv2 == (((h & 3) as bv2) ^ ((x & 3) as bv2)) * 3
  {
  }

  lemma LowBitsOfOctet(b: byte)
    ensures ((b as bv8) & 3) as bv2 == (b % 4) as bv2
  {
    var n := b as int;
    var q, r := n / 4, n % 4;
    assert n == 4 * q + r;
    assert n % 2 == r % 2 && n / 2 % 2 == r / 2 % 2;
  }

  lemma Widening(b: byte)
    ensures (b as bv8) as bv32 == b as bv32
  {
  }

  lemma LowBitsOfByte(b: byte)
    ensures ((b as bv32) & 3) as bv2 == (b % 4) as bv2
  {
    LowBitsOfOctet(b);
    Widening(b);
  }

  lemma RoundKeepsLowBits(h: bv32, b: byte)
    ensures (Round(h, b) & 3) as bv2 == (((h & 3) as bv2) ^ ((b % 4) as bv2)) * 3
  {
    LowBitsOfRound(h, b as bv32);
    LowBitsOfByte(b);
  }

  lemma TurnIsBitwise(s: bv2, b: byte)
    ensures Turn(s as int, b) == ((s ^ ((b % 4) as bv2)) * 3) as int
  {
  }

  lemma LowBitsAreRemainder(h: bv32)
    ensures ((h as bv64) % 4) as int == ((h & 3) as bv2) as int
  {
  }

  /** The other thirty bits of the digest never matter: two bits of state decide the shard. */
  lemma {:induction false} PickShardIsAutomaton(key: Bytes)
    ensures PickShard(key) == Automaton(key)
  {
    LowBitsAreRemainder(Fnv1a(key));
    if key != [] {
      var h := Fnv1a(key[..|key| - 1]);
      PickShardIsAutomaton(key[..|key| - 1]);
      LowBitsAreRemainder(h);
      RoundKeepsLowBits(h, key[|key| - 1]);
      TurnIsBitwise((h & 3) as bv2, key[|key| - 1]);
    }
  }

  /** Keys that agree byte by byte modulo 4 always share a shard. */
  lemma {:induction false} CongruentKeysCollide(a: Bytes, b: Bytes)
    requires |a| == |b|
    requires forall i :: 0 <= i < |a| ==> a[i] % 4 == b[i] % 4
    ensures PickShard(a) == PickShard(b)
  {
    PickShardIsAutomaton(a);
    PickShardIsAutomaton(b);
    if a != [] {
      var n := |a| - 1;
      CongruentKeysCollide(a[..n], b[..n]);
      PickShardIsAutomaton(a[..n]);
      PickShardIsAutomaton(b[..n]);
      assert a[n] % 4 == b[n] % 4;
    }
  }

  // ---- balance ------------------------------------------------------------------

  /** The residue modulo 4 a byte must have to take the automaton from s to t. */
  function Needed(s: Shard, t: Shard): Shard {
    Xor(3 * t % 4, s)
  }

  lemma NeededExact(s: Shard, r: Shard, t: Shard)
    ensures 3 * Xor(s, r) % 4 == t <==> r == Needed(s, t)
  {
  }

  /** The bytes 4*i + v for i < top: the start of one residue class modulo 4. */
  ghost function Residue(v: Shard, top: int): set<byte>
    requires 0 <= top <= 64
    ensures forall b: byte :: b in Residue(v, top) <==> b as int % 4 == v && b as int / 4 < top
    ensures |Residue(v, top)| == top
    decreases top
  {
    if top == 0 then {} else Residue(v, top - 1) + {(4 * (top - 1) + v) as byte}
  }

  /** The bytes that take the automaton from s to t. */
  ghost function Extensions(s: Shard, t: Shard): (bytes: set<byte>)
    ensures |bytes| == 64
    ensures forall b: byte :: b in bytes <==> Turn(s, b) == t
  {
    var bytes := Residue(Needed(s, t), 64);
    assert forall b: byte :: b in bytes <==> Turn(s, b) == t by {
      forall b: byte ensures b in bytes <==> Turn(s, b) == t {
        NeededExact(s, (b % 4) as int, t);
      }
    }
    bytes
  }

  /** After any prefix, exactly 64 of the 256 next bytes lead to any given shard. */
  lemma PrefixBalance(prefix: Bytes, shard: Shard)
    ensures exists bytes: set<byte> ::
      |bytes| == 64 && forall b: byte :: b in bytes <==> PickShard(prefix + [b]) == shard
  {
    var bytes := Extensions(Automaton(prefix), shard);
    forall b: byte
      ensures b in bytes <==> PickShard(prefix + [b]) == shard
    {
      PickShardIsAutomaton(prefix + [b]);
      assert (prefix + [b])[..|prefix|] == prefix;
    }
  }

  /** Every key of one set followed by every byte of another. */
  ghost function Append(keys: set<Bytes>, bytes: set<byte>): set<Bytes> {
    set k, b | k in keys && b in bytes :: k + [b]
  }

  lemma InAppend(keys: set<Bytes>, bytes: set<byte>, key: Bytes)
    ensures key in Append(keys, bytes) <==> key != [] && key[..|key| - 1] in keys && key[|key| - 1] in bytes
  {
    if key != [] && key[..|key| - 1] in keys && key[|key| - 1] in bytes {
      assert key == key[..|key| - 1] + [key[|key| - 1]];
    }
    if key in Append(keys, bytes) {
      var k, b :| k in keys && b in bytes && key == k + [b];
      assert key[..|key| - 1] == k;
    }
  }

  lemma {:induction false} AppendOneSize(key: Bytes, bytes: set<byte>)
    ensures |Append({key}, bytes)| == |bytes|
  {
    if bytes == {} {
      assert Append({key}, bytes) == {};
    } else {
      var b :| b in bytes;
      AppendOneSize(key, bytes - {b});
      assert Append({key}, bytes) == Append({key}, bytes - {b}) + {key + [b]};
      InAppend({key}, bytes - {b}, key + [b]);
    }
  }

  lemma AppendSplit(keys: set<Bytes>, k: Bytes, bytes: set<byte>)
    requires k in keys
    ensures |Append(keys, bytes)| == |Append(keys - {k}, bytes)| + |Append({k}, bytes)|
  {
    var rest, these := Append(keys - {k}, bytes), Append({k}, bytes);
    forall x: Bytes
      ensures x in Append(keys, bytes) <==> x in rest || x in these
      ensures !(x in rest && x in these)
    {
      InAppend(keys, bytes, x);
      InAppend(keys - {k}, bytes, x);
      InAppend({k}, bytes, x);
    }
    assert Append(keys, bytes) == rest + these;
    assert rest !! these;
  }

  lemma {:induction false} AppendSize(keys: set<Bytes>, bytes: set<byte>)
    ensures |Append(keys, bytes)| == |keys| * |bytes|
  {
    if keys == {} {
      assert Append(keys, bytes) == {};
    } else {
      var k :| k in keys;
      AppendSize(keys - {k}, bytes);
      AppendOneSize(k, bytes);
      AppendSplit(keys, k, bytes);
      calc {
        |keys| * |bytes|;
        (|keys - {k}| + 1) * |bytes|;
        |keys - {k}| * |bytes| + |bytes|;
      }
    }
  }

  ghost function AllBytes(): set<byte> {
    Residue(0, 64) + Residue(1, 64) + Residue(2, 64) + Residue(3, 64)
  }

  /** All 256^n keys of length n. */
  ghost function AllKeys(n: nat): set<Bytes> {
    if n == 0 then {[]} else Append(AllKeys(n - 1), AllBytes())
  }

  lemma {:induction false} InAllKeys(n: nat, key: Bytes)
    ensures key in AllKeys(n) <==> |key| == n
  {
    hide Append, Residue;
    if n > 0 {
      InAppend(AllKeys(n - 1), AllBytes(), key);
      if key != [] {
        InAllKeys(n - 1, key[..|key| - 1]);
      }
    }
  }

  /** The keys of length n that land on one shard. */
  ghost function Keys(n: nat, t: Shard): set<Bytes> {
    set key | key in AllKeys(n) && Automaton(key) == t
  }

  /** The keys of length n + 1 in shard t whose first n bytes are in shard s. */
  ghost function Layer(n: nat, s: Shard, t: Shard): set<Bytes> {
    Append(Keys(n, s), Extensions(s, t))
  }

  lemma InLayer(n: nat, s: Shard, t: Shard, key: Bytes)
    ensures key in Layer(n, s, t) <==> |key| == n + 1 && Automaton(key) == t && Automaton(key[..n]) == s
  {
    hide Append, Extensions, AllKeys;
    InAppend(Keys(n, s), Extensions(s, t), key);
    if key != [] {
      InAllKeys(n, key[..|key| - 1]);
    }
  }

  lemma KeysAreLayers(n: nat, t: Shard)
    ensures Keys(n + 1, t) == Layer(n, 0, t) + Layer(n, 1, t) + Layer(n, 2, t) + Layer(n, 3, t)
  {
    hide Append, AllKeys, Extensions, Layer;
    forall key: Bytes
      ensures key in Keys(n + 1, t) <==>
              key in Layer(n, 0, t) || key in Layer(n, 1, t) || key in Layer(n, 2, t) || key in Layer(n, 3, t)
    {
      InAllKeys(n + 1, key);
      InLayer(n, 0, t, key);
      InLayer(n, 1, t, key);
      InLayer(n, 2, t, key);
      InLayer(n, 3, t, key);
    }
  }

  lemma LayersDisjoint(n: nat, s: Shard, s': Shard, t: Shard)
    requires s != s'
    ensures Layer(n, s, t) !! Layer(n, s', t)
  {
    forall x: Bytes | x in Layer(n, s, t) ensures x !in Layer(n, s', t) {
      InLayer(n, s, t, x);
      InLayer(n, s', t, x);
    }
  }

  lemma UnionSize(a: set<Bytes>, b: set<Bytes>, c: set<Bytes>, d: set<Bytes>)
    requires a !! b && a !! c && a !! d && b !! c && b !! d && c !! d
    ensures |a + b + c + d| == |a| + |b| + |c| + |d|
  {
  }

  ghost function Pow256(n: nat): nat {
    if n == 0 then 1 else 256 * Pow256(n - 1)
  }

  lemma LayerSize(n: nat, s: Shard, t: Shard)
    ensures |Layer(n, s, t)| == 64 * |Keys(n, s)|
  {
    hide Append, Keys, Extensions;
    AppendSize(Keys(n, s), Extensions(s, t));
  }

  lemma KeysStep(n: nat, t: Shard)
    ensures |Keys(n + 1, t)| == 64 * (|Keys(n, 0)| + |Keys(n, 1)| + |Keys(n, 2)| + |Keys(n, 3)|)
  {
    hide Append, Layer, Keys;
    KeysAreLayers(n, t);
    LayersDisjoint(n, 0, 1, t); LayersDisjoint(n, 0, 2, t); LayersDisjoint(n, 0, 3, t);
    LayersDisjoint(n, 1, 2, t); LayersDisjoint(n, 1, 3, t); LayersDisjoint(n, 2, 3, t);
    UnionSize(Layer(n, 0, t), Layer(n, 1, t), Layer(n, 2, t), Layer(n, 3, t));
    LayerSize(n, 0, t); LayerSize(n, 1, t); LayerSize(n, 2, t); LayerSize(n, 3, t);
  }

  /** The one key of length 0 goes to shard 1. */
  lemma EmptyKey(t: Shard)
    ensures Keys(0, t) == if t == 1 then {[]} else {}
  {
    hide Turn, AllBytes, Append;
    forall key: Bytes ensures key in Keys(0, t) <==> key == [] && t == 1 {
      InAllKeys(0, key);
    }
  }

  lemma {:induction false} AllKeysSize(n: nat)
    ensures |Keys(n, 0)| + |Keys(n, 1)| + |Keys(n, 2)| + |Keys(n, 3)| == Pow256(n)
  {
    hide Keys;
    if n == 0 {
      EmptyKey(0); EmptyKey(1); EmptyKey(2); EmptyKey(3);
    } else {
      AllKeysSize(n - 1);
      KeysStep(n - 1, 0); KeysStep(n - 1, 1); KeysStep(n - 1, 2); KeysStep(n - 1, 3);
    }
  }

  /** For every n >= 1, exactly a quarter of the 256^n keys of length n go to each shard. */
  lemma ShardBalance(n: nat, shard: Shard)
    requires n >= 1
    ensures forall key: Bytes :: key in Keys(n, shard) <==> |key| == n && PickShard(key) == shard
    ensures 4 * |Keys(n, shard)| == Pow256(n)
  {
    forall key: Bytes ensures key in Keys(n, shard) <==> |key| == n && PickShard(key) == shard {
      InKeys(n, shard, key);
    }
    hide Keys, PickShard;
    KeysStep(n - 1, shard);
    AllKeysSize(n - 1);
  }

  lemma InKeys(n: nat, shard: Shard, key: Bytes)
    ensures key in Keys(n, shard) <==> |key| == n && PickShard(key) == shard
  {
    hide AllKeys, PickShard, Automaton;
    InAllKeys(n, key);
    PickShardIsAutomaton(key);
  }
}
