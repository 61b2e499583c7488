/** Machine integers, outcomes and protocol constants shared by every module. */
module Types {
  type byte = x: int | 0 <= x < 0x100
  type u16 = x: int | 0 <= x < 0x1_0000
  type Bytes = seq<byte>

  /** The 16-byte identifier of a source. */
  type Cid = c: Bytes | |c| == 16 witness [0, 0, 0, 0, 0, 0, 0, 0, 0, 0, 0, 0, 0, 0, 0, 0]

  const E131_DISCOVERY_UNIVERSE: u16 := 64214
  const E131_MIN_MULTICAST_UNIVERSE: u16 := 1
  const E131_MAX_MULTICAST_UNIVERSE: u16 := 63999
  const E131_MAX_PRIORITY: byte := 200
  const E131_DEFAULT_PRIORITY: byte := 100
  const E131_NO_SYNC_ADDR: u16 := 0
  const DISCOVERY_UNI_PER_PAGE := 512
  const UNIVERSE_CHANNEL_CAPACITY := 513
  const SOURCE_NAME_LENGTH := 64
  const RCV_BUF_DEFAULT_SIZE := 1144
  const DATA_LOSS_TIMEOUT := 2500
  const SEQ_DIFF_DISCARD_LOWER_BOUND := -20
  const SEQ_DIFF_DISCARD_UPPER_BOUND := 0

  datatype Option<+T> = None | Some(value: T)

  /** What parsing can complain about; message strings are dropped. */
  datatype ParseError =
    | InsufficientData
    | InvalidData
    | InvalidFlags(flags: int)
    | InvalidVector(vector: int)
    | InvalidLength(length: nat)
    | SourceNameNotNullTerminated
    | InvalidUtf8
    | InvalidParsedPriority(priority: byte)
    | InvalidSyncAddr(addr: u16)
    | InvalidUniverse(universe: u16)
    | InvalidPage
    | InvalidUniverseOrder
    | PackBufferInsufficient
    | PackInvalidData

  datatype SacnError =
    | Io
    | ParsePack(reason: ParseError)
    | MalformedSourceName
    | InvalidPriority(priority: byte)
    | SourcesExceeded(count: nat)
    | SourceLimitZero
    | SourceDiscovered(name: Bytes)
    | ExceedUniverseCapacity(length: nat)
    | IllegalUniverse(universe: u16)
    | IllegalSyncUniverse(universe: u16)
    | UniverseNotRegistered(universe: u16)
    | SenderAlreadyTerminated
    | DmxMergeError
    | OutOfSequence(received: byte, last: byte, diff: int)
    | UniverseTerminated(cid: Cid, universe: u16)
    | UniverseTimeout(cid: Cid, universe: u16)
    | UniverseNotFound(universe: u16)
    | SourceNotFound(cid: Cid)
    | DataArrayEmpty
    | UniverseListEmpty

  datatype Result<+T> = Ok(value: T) | Err(error: SacnError)

  /** Something that happens at a time, in milliseconds. */
  datatype Timed<+E> = At(now: nat, event: E)

  /** The clock never runs backwards. */
  ghost predicate ClockRuns<E>(evs: seq<Timed<E>>, from: nat) {
    evs == [] || (from <= evs[0].now && ClockRuns(evs[1..], evs[0].now))
  }

  /** A call with nothing to return. */
  datatype Unit = Unit

  predicate InDataRange(u: u16) {
    E131_MIN_MULTICAST_UNIVERSE <= u <= E131_MAX_MULTICAST_UNIVERSE
  }

  predicate InRange(u: u16) {
    u == E131_DISCOVERY_UNIVERSE || InDataRange(u)
  }

  /** The universes of section 6.2.7 of ANSI E1.31-2018, and the one for discovery. */
  lemma UniverseLimits(u: u16)
    ensures InDataRange(u) <==> 1 <= u <= 63999
    ensures InRange(u) <==> 1 <= u <= 63999 || u == 64214
  {
  }

  predicate Ascending(s: seq<u16>) {
    forall i, j | 0 <= i < j < |s| :: s[i] < s[j]
  }

  function Zeros(n: nat): (r: Bytes)
    ensures |r| == n
  {
    seq(n, _ => 0)
  }

  /** Where `x` stands in an ascending list, or where it would have to be put. */
  datatype Search = Found(at: nat) | Missing(at: nat)

  function BinarySearch(s: seq<u16>, x: u16): (r: Search)
    requires Ascending(s)
    ensures r.Found? ==> r.at < |s| && s[r.at] == x
    ensures r.Missing? ==> r.at <= |s|
    ensures r.Missing? ==> forall i | 0 <= i < r.at :: s[i] < x
    ensures r.Missing? ==> forall i | r.at <= i < |s| :: x < s[i]
  {
    if s == [] || x < s[0] then Missing(0)
    else if s[0] == x then Found(0)
    else match BinarySearch(s[1..], x)
      case Found(i) => Found(i + 1)
      case Missing(i) => Missing(i + 1)
  }

  /** Adds `x` to an ascending list unless it is there. */
  function Insert(s: seq<u16>, x: u16): (r: seq<u16>)
    requires Ascending(s)
  {
    match BinarySearch(s, x)
    case Found(_) => s
    case Missing(i) => s[..i] + [x] + s[i..]
  }

  lemma AddingKeepsOrder(s: seq<u16>, i: nat, x: u16)
    requires Ascending(s) && i <= |s|
    requires (forall k | 0 <= k < i :: s[k] < x) && (forall k | i <= k < |s| :: x < s[k])
    ensures Ascending(s[..i] + [x] + s[i..])
  {
    var r := s[..i] + [x] + s[i..];
    forall a, b | 0 <= a < b < |r| ensures r[a] < r[b] {
      assert r[a] == if a < i then s[a] else if a == i then x else s[a - 1];
      assert r[b] == if b < i then s[b] else if b == i then x else s[b - 1];
    }
  }

  lemma AddingAddsOne(s: seq<u16>, i: nat, x: u16, y: u16)
    requires i <= |s|
    ensures y in s[..i] + [x] + s[i..] <==> y in s || y == x
  {
    var r := s[..i] + [x] + s[i..];
    assert r[i] == x;
    if y in r {
      var k :| 0 <= k < |r| && r[k] == y;
      assert k != i ==> y == s[if k < i then k else k - 1];
    }
    if y in s {
      var k :| 0 <= k < |s| && s[k] == y;
      assert y == r[if k < i then k else k + 1];
    }
  }

  lemma InsertKeepsOrder(s: seq<u16>, x: u16)
    requires Ascending(s)
    ensures Ascending(Insert(s, x))
    ensures forall y :: y in Insert(s, x) <==> y in s || y == x
  {
    match BinarySearch(s, x)
    case Found(_) =>
    case Missing(i) =>
      AddingKeepsOrder(s, i, x);
      forall y: u16 ensures y in Insert(s, x) <==> y in s || y == x { AddingAddsOne(s, i, x, y); }
  }

  /** Takes `x` out of an ascending list. */
  function Remove(s: seq<u16>, x: u16): (r: seq<u16>)
    requires Ascending(s)
  {
    match BinarySearch(s, x)
    case Found(i) => s[..i] + s[i + 1..]
    case Missing(i) => s
  }

  lemma DroppingKeepsOrder(s: seq<u16>, i: nat)
    requires Ascending(s) && i < |s|
    ensures Ascending(s[..i] + s[i + 1..])
  {
    var r := s[..i] + s[i + 1..];
    forall m, n | 0 <= m < n < |r| ensures r[m] < r[n] {
      assert r[m] == s[if m < i then m else m + 1] && r[n] == s[if n < i then n else n + 1];
    }
  }

  lemma DroppingDropsOne(s: seq<u16>, i: nat, y: u16)
    requires Ascending(s) && i < |s|
    ensures y in s[..i] + s[i + 1..] <==> y in s && y != s[i]
  {
    var r := s[..i] + s[i + 1..];
    if y in r {
      var k :| 0 <= k < |r| && r[k] == y;
      assert y == s[if k < i then k else k + 1];
    }
    if y in s && y != s[i] {
      var k :| 0 <= k < |s| && s[k] == y;
      assert y == r[if k < i then k else k - 1];
    }
  }

  lemma RemoveKeepsOrder(s: seq<u16>, x: u16)
    requires Ascending(s)
    ensures Ascending(Remove(s, x))
    ensures forall y :: y in Remove(s, x) <==> y in s && y != x
    ensures |Remove(s, x)| == if x in s then |s| - 1 else |s|
  {
    match BinarySearch(s, x)
    case Missing(_) =>
    case Found(i) =>
      DroppingKeepsOrder(s, i);
      forall y ensures y in Remove(s, x) <==> y in s && y != x { DroppingDropsOne(s, i, y); }
  }
}
