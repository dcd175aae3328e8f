/** From a request id to its shard, and from a shard to its queue or stream. */
module Routing {
  import opened Wrappers
  import opened Decimals

  type Byte = x: int | 0 <= x < 256

  // ----- The resolver -----

  const TWO_TO_THE_64: int := 0x1_0000_0000_0000_0000

  /** The unsigned big-endian number. */
  function FromBytes(bytes: seq<Byte>): nat {
    if bytes == [] then 0 else FromBytes(bytes[..|bytes| - 1]) * 256 + bytes[|bytes| - 1]
  }

  /** `int.from_bytes(bytes, byteorder="big", signed=True)` of eight bytes: two's complement. */
  function SignedFromBytes(bytes: seq<Byte>): int
    requires |bytes| == 8
  {
    var n := FromBytes(bytes);
    if n < TWO_TO_THE_64 / 2 then n else n - TWO_TO_THE_64
  }

  datatype Resolver = Resolver(shardCount: int)

  datatype RoutingError =
    | ShardCountNotPositive
    | UnexpectedStream(stream: string)
    | InvalidNumber(text: string)
    | StreamMissing(stream: string)

  function NewResolver(shardCount: int): Result<Resolver, RoutingError> {
    if shardCount <= 0 then Failure(ShardCountNotPositive) else Success(Resolver(shardCount))
  }

  /** `digest` is the SHA-256 of the request id; Python's remainder by a positive number is never negative. */
  function Resolve(r: Resolver, digest: seq<Byte>): int
    requires 0 < r.shardCount && |digest| == 32
  {
    SignedFromBytes(digest[..8]) % r.shardCount
  }

  function Pow256(n: nat): nat {
    if n == 0 then 1 else 256 * Pow256(n - 1)
  }

  function ToBytes(n: nat, v: nat): seq<Byte> {
    if n == 0 then [] else ToBytes(n - 1, v / 256) + [v % 256]
  }

  lemma {:induction false} BytesRoundTrip(bytes: seq<Byte>)
    ensures ToBytes(|bytes|, FromBytes(bytes)) == bytes && FromBytes(bytes) < Pow256(|bytes|)
  {
    if bytes != [] {
      BytesRoundTrip(bytes[..|bytes| - 1]);
    }
  }

  lemma {:induction false} NumberRoundTrip(n: nat, v: nat)
    requires v < Pow256(n)
    ensures |ToBytes(n, v)| == n && FromBytes(ToBytes(n, v)) == v
  {
    if n != 0 {
      NumberRoundTrip(n - 1, v / 256);
    }
  }

  lemma EightBytes()
    ensures Pow256(8) == TWO_TO_THE_64
  {
    assert Pow256(4) == 0x1_0000_0000;
    assert Pow256(6) == 0x1_0000_0000_0000;
  }

  /** Eight bytes give a 64-bit signed number, and different bytes give different numbers. */
  lemma SignedIsInjective(a: seq<Byte>, b: seq<Byte>)
    requires |a| == |b| == 8
    ensures -TWO_TO_THE_64 / 2 <= SignedFromBytes(a) < TWO_TO_THE_64 / 2
    ensures SignedFromBytes(a) == SignedFromBytes(b) <==> a == b
  {
    EightBytes();
    BytesRoundTrip(a);
    BytesRoundTrip(b);
  }

  /** The number in two's complement, first byte first, written out. */
  lemma SignedValue(b: seq<Byte>)
    requires |b| == 8
    ensures var n := b[0] as int * 0x100_0000_0000_0000 + b[1] as int * 0x1_0000_0000_0000
                     + b[2] as int * 0x100_0000_0000 + b[3] as int * 0x1_0000_0000
                     + b[4] as int * 0x100_0000 + b[5] as int * 0x1_0000
                     + b[6] as int * 0x100 + b[7] as int;
            SignedFromBytes(b) == if b[0] < 128 then n else n - 0x1_0000_0000_0000_0000
  {
    FirstBytes(b, 7);
    FirstBytes(b, 6);
    FirstBytes(b, 5);
    FirstBytes(b, 4);
    FirstBytes(b, 3);
    FirstBytes(b, 2);
    FirstBytes(b, 1);
    FirstBytes(b, 0);
    assert b[..8] == b && b[..0] == [];
    hide FromBytes;
  }

  lemma FirstBytes(b: seq<Byte>, i: nat)
    requires i < |b|
    ensures FromBytes(b[..i + 1]) == FromBytes(b[..i]) * 256 + b[i]
    ensures FromBytes([]) == 0
  {
    assert b[..i + 1][..i] == b[..i];
  }

  /** A resolver is refused exactly for a shard count that is not positive; any other gives every digest
      exactly one of the declared shards: the number congruent to the value of its first eight bytes, read as
      a signed number, first byte first. */
  lemma ResolveIsTotal(shardCount: int, digest: seq<Byte>, s: int)
    requires |digest| == 32
    ensures match NewResolver(shardCount)
            case Failure(e) => shardCount <= 0 && e == ShardCountNotPositive
            case Success(r) =>
              && r.shardCount == shardCount > 0
              && 0 <= Resolve(r, digest) < shardCount
              && var n := digest[0] as int * 0x100_0000_0000_0000 + digest[1] as int * 0x1_0000_0000_0000
                          + digest[2] as int * 0x100_0000_0000 + digest[3] as int * 0x1_0000_0000
                          + digest[4] as int * 0x100_0000 + digest[5] as int * 0x1_0000
                          + digest[6] as int * 0x100 + digest[7] as int;
                 var v := if digest[0] < 128 then n else n - 0x1_0000_0000_0000_0000;
                 s == Resolve(r, digest) <==> 0 <= s < shardCount && (v - s) % shardCount == 0
  {
    hide SignedFromBytes;
    if 0 < shardCount {
      SignedValue(digest[..8]);
      OnlyRemainder(SignedFromBytes(digest[..8]), shardCount, s);
    }
  }

  lemma OnlyRemainder(v: int, n: int, s: int)
    requires 0 < n
    ensures s == v % n <==> 0 <= s < n && (v - s) % n == 0
  {
    var q, r := v / n, v % n;
    assert v == q * n + r;
    if s == r {
      MultipleIsDivisible(q, n);
    } else if 0 <= s < n && (v - s) % n == 0 {
      var k := (v - s) / n;
      assert v - s == k * n;
      QuotientIsUnique(n, q, r, k, s);
    }
  }

  lemma MultipleIsDivisible(q: int, n: int)
    requires 0 < n
    ensures (q * n) % n == 0
  {
    QuotientIsUnique(n, q, 0, (q * n) / n, (q * n) % n);
  }

  lemma QuotientIsUnique(n: int, q: int, r: int, k: int, s: int)
    requires 0 <= r < n && 0 <= s < n && q * n + r == k * n + s
    ensures r == s
  {
    assert (q - k) * n == s - r;
    SmallMultiple(q - k, n);
  }

  lemma SmallMultiple(m: int, n: int)
    requires -n < m * n < n
    ensures m * n == 0
  {
    assert m >= 1 ==> m * n >= n;
    assert m <= -1 ==> m * n <= -n;
  }

  /** The number that gives shard `s`, if a signed 64-bit number does. */
  function NumberFor(s: nat, n: int): int {
    if s < TWO_TO_THE_64 / 2 then s else s - n
  }

  lemma RemainderOfNear(v: int, n: int)
    requires -n <= v < n && 0 < n
    ensures v % n == if 0 <= v then v else if v == -n then 0 else v + n
  {
    if v < 0 {
      QuotientIsUnique(n, v / n, v % n, -1, if v == -n then 0 else v + n);
    }
  }

  lemma SignedOf(v: int) returns (bytes: seq<Byte>)
    requires -TWO_TO_THE_64 / 2 <= v < TWO_TO_THE_64 / 2
    ensures |bytes| == 8 && SignedFromBytes(bytes) == v
  {
    EightBytes();
    hide Pow256, ToBytes, FromBytes;
    var n := if 0 <= v then v else v + TWO_TO_THE_64;
    NumberRoundTrip(8, n);
    bytes := ToBytes(8, n);
  }

  ghost predicate IsUsed(r: Resolver, s: int)
    requires 0 < r.shardCount
  {
    exists digest: seq<Byte> :: |digest| == 32 && Resolve(r, digest) == s
  }

  lemma UsedIsNear(r: Resolver, digest: seq<Byte>)
    requires 0 < r.shardCount && |digest| == 32
    ensures var s := Resolve(r, digest);
            s < TWO_TO_THE_64 / 2 || r.shardCount - TWO_TO_THE_64 / 2 <= s
  {
    SignedIsInjective(digest[..8], digest[..8]);
    hide SignedFromBytes;
    var v, n := SignedFromBytes(digest[..8]), r.shardCount;
    if n <= TWO_TO_THE_64 / 2 {
      assert v % n < n;
    } else {
      RemainderOfNear(v, n);
    }
  }

  /** A shard is the shard of some digest exactly when it is within 2^63 of one end of the range; so for up
      to 2^64 shards none is left out. */
  lemma EveryShardIsUsed(r: Resolver, s: nat)
    requires NewResolver(r.shardCount) == Success(r) && s < r.shardCount
    ensures IsUsed(r, s) <==> s < TWO_TO_THE_64 / 2 || r.shardCount - TWO_TO_THE_64 / 2 <= s
    ensures r.shardCount <= TWO_TO_THE_64 ==> IsUsed(r, s)
  {
    if s < TWO_TO_THE_64 / 2 || r.shardCount - TWO_TO_THE_64 / 2 <= s {
      var v := NumberFor(s, r.shardCount);
      var bytes := SignedOf(v);
      hide SignedFromBytes;
      var digest := bytes + seq(24, i => 0);
      assert digest[..8] == bytes;
      RemainderOfNear(v, r.shardCount);
      assert Resolve(r, digest) == s;
    } else {
      forall digest: seq<Byte> | |digest| == 32 ensures Resolve(r, digest) != s {
        UsedIsNear(r, digest);
      }
    }
  }

  // ----- Topic exchanges -----

  /** The words of a routing key. */
  function Words(key: string): seq<string> {
    if key == [] then [[]]
    else
      var rest := Words(key[1..]);
      if key[0] == '.' then [[]] + rest else [[key[0]] + rest[0]] + rest[1..]
  }

  /** Whether a topic exchange passes a message on: `*` stands for one word, `#` for any number. */
  predicate TopicMatches(pattern: seq<string>, words: seq<string>)
    decreases |pattern| + |words|
  {
    if pattern == [] then words == []
    else if pattern[0] == "#" then
      TopicMatches(pattern[1..], words) || (words != [] && TopicMatches(pattern, words[1..]))
    else
      words != [] && (pattern[0] == "*" || pattern[0] == words[0]) && TopicMatches(pattern[1..], words[1..])
  }

  lemma {:induction false} PlainPatternMatchesItself(pattern: seq<string>, words: seq<string>)
    requires forall i :: 0 <= i < |pattern| ==> pattern[i] != "#" && pattern[i] != "*"
    ensures TopicMatches(pattern, words) <==> pattern == words
    decreases |pattern|
  {
    if pattern != [] && words != [] {
      PlainPatternMatchesItself(pattern[1..], words[1..]);
      assert pattern == [pattern[0]] + pattern[1..] && words == [words[0]] + words[1..];
    }
  }

  /** The two wildcards. */
  lemma {:induction false} WildcardsMatch(words: seq<string>)
    ensures TopicMatches(["*"], words) <==> |words| == 1
    ensures TopicMatches(["#"], words)
  {
    assert ["*"][1..] == [] && ["#"][1..] == [];
    if words != [] {
      WildcardsMatch(words[1..]);
    }
  }

  lemma {:induction false} WordsOfTwo(a: string, b: string)
    requires '.' !in a && '.' !in b
    ensures Words(b) == [b]
    ensures Words(a + "." + b) == [a, b]
    decreases |a| + |b|
  {
    if b != [] {
      WordsOfTwo([], b[1..]);
      assert [b[0]] + b[1..] == b;
    }
    if a == [] {
      assert (a + "." + b)[1..] == b;
    } else {
      WordsOfTwo(a[1..], b);
      assert (a + "." + b)[1..] == a[1..] + "." + b;
      assert [a[0]] + a[1..] == a;
    }
  }

  function RoutingKey(shard: nat): string {
    "pricing." + Decimal(shard)
  }

  lemma DecimalHasNoDot(n: nat)
    ensures '.' !in Decimal(n) && Decimal(n) != "#" && Decimal(n) != "*"
  {
    DecimalIsDigits(n);
    assert Decimal(n)[0] != '#' && Decimal(n)[0] != '*';
  }

  lemma KeyWords(n: nat)
    ensures Words(RoutingKey(n)) == ["pricing", Decimal(n)]
  {
    DecimalHasNoDot(n);
    assert RoutingKey(n) == "pricing" + "." + Decimal(n);
    WordsOfTwo("pricing", Decimal(n));
  }

  /** A message published for one shard passes the binding of that shard and no other. */
  lemma BindingIsExact(bound: nat, published: nat)
    ensures TopicMatches(Words(RoutingKey(bound)), Words(RoutingKey(published))) <==> bound == published
  {
    KeyWords(bound);
    KeyWords(published);
    DecimalHasNoDot(bound);
    PlainPatternMatchesItself(["pricing", Decimal(bound)], ["pricing", Decimal(published)]);
    ParseOfDecimal(bound);
    ParseOfDecimal(published);
  }

  // ----- Declared queues -----

  datatype Binding = Binding(queue: string, key: string)

  function QueueName(prefix: string, shard: nat): string {
    prefix + "." + Decimal(shard)
  }

  function PartitionStream(superStream: string, shard: nat): string {
    superStream + "-" + Decimal(shard)
  }

  class Channel {
    var queues: set<string>
    var bindings: set<Binding>

    method DeclareQueue(name: string)
      modifies this`queues
      ensures queues == old(queues) + {name}
    {
      queues := queues + {name};
    }

    method Bind(queue: string, key: string)
      requires queue in queues
      modifies this`bindings
      ensures bindings == old(bindings) + {Binding(queue, key)}
    {
      bindings := bindings + {Binding(queue, key)};
    }
  }

  /** One durable queue per shard, bound under the shard's own key; the result maps shards to queues. */
  method DeclareQuorumPricingTopology(channel: Channel, queuePrefix: string, shardCount: int)
    returns (queues: map<nat, string>)
    modifies channel
    ensures queues == map s: nat | s < shardCount :: QueueName(queuePrefix, s)
    ensures channel.queues == old(channel.queues) + queues.Values
    ensures channel.bindings == old(channel.bindings) + QuorumBindings(queuePrefix, shardCount)
  {
    hide QueueName, RoutingKey;
    queues := map[];
    var s: nat := 0;
    while s < shardCount
      invariant s == 0 || s <= shardCount
      invariant queues == map t: nat | t < s :: QueueName(queuePrefix, t)
      invariant channel.queues == old(channel.queues) + queues.Values
      invariant channel.bindings == old(channel.bindings) + QuorumBindings(queuePrefix, s)
    {
      var name := QueueName(queuePrefix, s);
      channel.DeclareQueue(name);
      channel.Bind(name, RoutingKey(s));
      OneMoreValue(queues, s, name);
      assert QuorumBindings(queuePrefix, s + 1) == QuorumBindings(queuePrefix, s) + {Binding(name, RoutingKey(s))};
      queues := queues[s := name];
      s := s + 1;
    }
  }

  lemma OneMoreValue(queues: map<nat, string>, s: nat, name: string)
    requires s !in queues
    ensures queues[s := name].Values == queues.Values + {name}
  {
    assert forall t :: t in queues ==> queues[s := name][t] == queues[t];
    assert queues[s := name][s] == name;
  }

  function QuorumBindings(queuePrefix: string, shardCount: int): set<Binding> {
    set s: nat | s < shardCount :: Binding(QueueName(queuePrefix, s), RoutingKey(s))
  }

  function StreamBindings(superStream: string, count: int): set<Binding> {
    set s: nat | s < count :: Binding(PartitionStream(superStream, s), RoutingKey(s))
  }

  /** Binds the existing stream of each partition; a missing one is an error, and those before it stay bound. */
  method BindSuperStreamPricingTopology(channel: Channel, superStream: string, partitionCount: int)
    returns (result: Result<(), RoutingError>)
    modifies channel
    ensures channel.queues == old(channel.queues)
    ensures result.Success? ==>
      && (forall s: nat :: s < partitionCount ==> PartitionStream(superStream, s) in channel.queues)
      && channel.bindings == old(channel.bindings) + StreamBindings(superStream, partitionCount)
    ensures result.Failure? ==>
      exists s: nat :: s < partitionCount
        && result.error == StreamMissing(PartitionStream(superStream, s))
        && PartitionStream(superStream, s) !in channel.queues
        && (forall t: nat :: t < s ==> PartitionStream(superStream, t) in channel.queues)
        && channel.bindings == old(channel.bindings) + StreamBindings(superStream, s)
  {
    var s: nat := 0;
    while s < partitionCount
      invariant s == 0 || s <= partitionCount
      invariant channel.queues == old(channel.queues)
      invariant forall t: nat :: t < s ==> PartitionStream(superStream, t) in channel.queues
      invariant channel.bindings == old(channel.bindings) + StreamBindings(superStream, s)
    {
      var name := PartitionStream(superStream, s);
      if name !in channel.queues {
        return Failure(StreamMissing(name));
      }
      channel.Bind(name, RoutingKey(s));
      assert StreamBindings(superStream, s + 1) == StreamBindings(superStream, s) + {Binding(name, RoutingKey(s))};
      s := s + 1;
    }
    result := Success(());
  }

  /** The queues that a message published under a key reaches. */
  function Reached(bindings: set<Binding>, key: string): set<string> {
    set b | b in bindings && TopicMatches(Words(b.key), Words(key)) :: b.queue
  }

  /** On the exchange that both topologies share, a shard's message reaches the queue and the stream of that
      very shard, as far as they were bound. */
  lemma ReachedOnCommonExchange(queuePrefix: string, queueCount: int, superStream: string, streamCount: int, shard: nat)
    ensures var bindings := QuorumBindings(queuePrefix, queueCount) + StreamBindings(superStream, streamCount);
            Reached(bindings, RoutingKey(shard)) ==
              (if shard < queueCount then {QueueName(queuePrefix, shard)} else {}) +
              (if shard < streamCount then {PartitionStream(superStream, shard)} else {})
  {
    var queues, streams := QuorumBindings(queuePrefix, queueCount), StreamBindings(superStream, streamCount);
    hide TopicMatches, Words, RoutingKey, QueueName, PartitionStream;
    var key := RoutingKey(shard);
    forall s: nat ensures TopicMatches(Words(RoutingKey(s)), Words(key)) <==> s == shard {
      BindingIsExact(s, shard);
    }
    assert shard < queueCount ==> Binding(QueueName(queuePrefix, shard), key) in queues;
    assert shard < streamCount ==> Binding(PartitionStream(superStream, shard), key) in streams;
  }

  /** Every request's message reaches exactly one queue, that of the shard which the resolver names, whatever
      streams are bound to the exchange besides. */
  lemma PublishReachesItsShard(r: Resolver, digest: seq<Byte>, queuePrefix: string, superStream: string,
                               streamCount: int)
    requires NewResolver(r.shardCount) == Success(r) && |digest| == 32
    ensures var shard := Resolve(r, digest);
            && 0 <= shard < r.shardCount
            && var bindings := QuorumBindings(queuePrefix, r.shardCount) + StreamBindings(superStream, streamCount);
               Reached(bindings, RoutingKey(shard)) ==
                 {QueueName(queuePrefix, shard)}
                 + if shard < streamCount then {PartitionStream(superStream, shard)} else {}
  {
    ResolveIsTotal(r.shardCount, digest, 0);
    ReachedOnCommonExchange(queuePrefix, r.shardCount, superStream, streamCount, Resolve(r, digest));
  }

  /** The same for super streams, whatever queues are bound besides; and the stream's name gives back the
      shard. */
  lemma PublishReachesItsStream(r: Resolver, digest: seq<Byte>, superStream: string, queuePrefix: string,
                                queueCount: int)
    requires NewResolver(r.shardCount) == Success(r) && |digest| == 32
    ensures var shard := Resolve(r, digest);
            && 0 <= shard < r.shardCount
            && (var bindings := QuorumBindings(queuePrefix, queueCount) + StreamBindings(superStream, r.shardCount);
                Reached(bindings, RoutingKey(shard)) ==
                  {PartitionStream(superStream, shard)}
                  + if shard < queueCount then {QueueName(queuePrefix, shard)} else {})
            && ShardIdFromStream(superStream, PartitionStream(superStream, shard)) == Success(shard)
  {
    ResolveIsTotal(r.shardCount, digest, 0);
    ReachedOnCommonExchange(queuePrefix, queueCount, superStream, r.shardCount, Resolve(r, digest));
    StreamRoundTrip(superStream, Resolve(r, digest));
  }

  // ----- Stream names -----

  function ShardIdFromStream(superStream: string, stream: string): Result<int, RoutingError> {
    var prefix := superStream + "-";
    if !(prefix <= stream) then Failure(UnexpectedStream(stream))
    else
      match ParseInt(stream[|prefix|..])
      case None => Failure(InvalidNumber(stream[|prefix|..]))
      case Some(n) => Success(n)
  }

  /** What is read from a stream's name, whatever the name: a name without the prefix is refused, and so is one
      where the rest is not a number. */
  lemma StreamReadExactly(superStream: string, stream: string)
    ensures var read := ShardIdFromStream(superStream, stream);
            var prefix := superStream + "-";
            if |stream| < |prefix| || stream[..|prefix|] != prefix then read == Failure(UnexpectedStream(stream))
            else
              var text := stream[|prefix|..];
              match read
              case Success(n) => Reads(text, n)
              case Failure(e) => e == InvalidNumber(text) && forall n :: !Reads(text, n)
  {
    var prefix := superStream + "-";
    if prefix <= stream {
      var text := stream[|prefix|..];
      hide ParseInt, Reads;
      forall n: int ensures ParseInt(text) == Some(n) <==> Reads(text, n) {
        ParseExactly(text, n);
      }
    }
  }

  /** The name of a partition's stream gives back the partition's number, for every number. */
  lemma StreamRoundTrip(superStream: string, n: nat)
    ensures ShardIdFromStream(superStream, PartitionStream(superStream, n)) == Success(n)
  {
    var prefix, stream := superStream + "-", PartitionStream(superStream, n);
    assert stream == prefix + Decimal(n);
    assert stream[|prefix|..] == Decimal(n);
    ParseOfDecimal(n);
  }

  /** The names and the key of a shard, with its number written as usual. */
  lemma NamesInFull(prefix: string, superStream: string, shard: nat, text: string)
    requires IsNumeral(text, shard)
    ensures QueueName(prefix, shard) == prefix + "." + text
    ensures PartitionStream(superStream, shard) == superStream + "-" + text
    ensures RoutingKey(shard) == "pricing." + text
  {
    OnlyNumeral(text, shard);
  }

  /** Different shards have different queues and streams. */
  lemma NamesAreDistinct(prefix: string, a: nat, b: nat)
    requires QueueName(prefix, a) == QueueName(prefix, b) || PartitionStream(prefix, a) == PartitionStream(prefix, b)
    ensures a == b
  {
    if QueueName(prefix, a) == QueueName(prefix, b) {
      assert QueueName(prefix, a)[|prefix| + 1..] == Decimal(a);
      assert QueueName(prefix, b)[|prefix| + 1..] == Decimal(b);
      ParseOfDecimal(a);
      ParseOfDecimal(b);
    } else {
      StreamRoundTrip(prefix, a);
      StreamRoundTrip(prefix, b);
    }
  }
}
