/** Values shared by every component: results, cluster constants, node statuses and chunk identifiers. */
module Common {

  datatype Option<+T> = None | Some(value: T)

  datatype Result<+T, +E> = Ok(value: T) | Err(error: E)

  type Byte = x: int | 0 <= x < 256

  // ---------------------------------------------------------------- constants

  const CHUNK_SIZE: nat := 4 * 1024 * 1024

  const DEFAULT_REPLICATION_FACTOR: nat := 3

  // Durations and instants are integer milliseconds.
  const DEAD_NODE_TIMEOUT: int := 15_000
  const WINDOW_SHORT: int := 5 * 60_000
  const WINDOW_MEDIUM: int := 15 * 60_000
  const WINDOW_LONG: int := 60 * 60_000

  const RISK_HEALTHY: real := 0.25
  const RISK_WARNING: real := 0.45
  const RISK_AT_RISK: real := 0.55

  datatype NodeStatus = Healthy | Warning | AtRisk | Critical | Dead

  function RiskToStatus(risk: real): (status: NodeStatus)
    ensures status != Dead
    ensures status == Healthy <==> risk < 0.25
    ensures status == Warning <==> 0.25 <= risk < 0.45
    ensures status == AtRisk <==> 0.45 <= risk < 0.55
    ensures status == Critical <==> 0.55 <= risk
  {
    if risk < RISK_HEALTHY then Healthy
    else if risk < RISK_WARNING then Warning
    else if risk < RISK_AT_RISK then AtRisk
    else Critical
  }

  // ---------------------------------------------------------- decimal numerals

  predicate IsDigit(c: char) { '0' <= c <= '9' }

  /** The decimal numeral that the "%d" verb prints for a natural number. */
  function Decimal(n: nat): (s: string)
    ensures |s| >= 1
    ensures forall i :: 0 <= i < |s| ==> IsDigit(s[i])
  {
    var digit := ('0' as int + n % 10) as char;
    if n < 10 then [digit] else Decimal(n / 10) + [digit]
  }

  lemma {:induction false} DecimalInjective(m: nat, n: nat)
    requires Decimal(m) == Decimal(n)
    ensures m == n
  {
    var s, t := Decimal(m), Decimal(n);
    assert s[|s| - 1] == t[|t| - 1];
    assert m % 10 == n % 10;
    if m >= 10 && n >= 10 {
      assert s[..|s| - 1] == Decimal(m / 10) && t[..|t| - 1] == Decimal(n / 10);
      DecimalInjective(m / 10, n / 10);
    }
  }

  // --------------------------------------------------------- chunk identifiers

  const CHUNK_SEPARATOR: string := ":chunk:"

  function ChunkKey(filePath: string, chunkIndex: nat): string {
    filePath + CHUNK_SEPARATOR + Decimal(chunkIndex)
  }

  /** The identifier of a chunk; `hash` stands for the truncated SHA-256 digest in hexadecimal. */
  function GenerateChunkID(hash: string -> string, filePath: string, chunkIndex: nat): string {
    hash(ChunkKey(filePath, chunkIndex))
  }

  /** No two strings have the same digest. */
  ghost predicate CollisionFree(hash: string -> string) {
    forall a, b :: hash(a) == hash(b) ==> a == b
  }

  /** The text hashed into a chunk identifier determines the path and the index, whatever the path contains. */
  lemma {:induction false} ChunkKeyInjective(p: string, i: nat, q: string, j: nat)
    requires ChunkKey(p, i) == ChunkKey(q, j)
    ensures p == q && i == j
  {
    var key := ChunkKey(p, i);
    var d, e := Decimal(i), Decimal(j);
    // The last colon of the key is the last character of the separator in both readings.
    assert key[|key| - |d| - 1] == ':';
    assert key[|key| - |e| - 1] == ':';
    assert |d| == |e|;
    assert d == key[|key| - |d|..] == e;
    DecimalInjective(i, j);
    assert p == key[..|key| - |d| - |CHUNK_SEPARATOR|] == q;
  }

  lemma {:induction false} ChunkIDInjective(hash: string -> string, p: string, i: nat, q: string, j: nat)
    requires CollisionFree(hash)
    requires GenerateChunkID(hash, p, i) == GenerateChunkID(hash, q, j)
    ensures p == q && i == j
  {
    ChunkKeyInjective(p, i, q, j);
  }

  // ------------------------------------------------------------------ sequences

  ghost predicate NoDup<T>(s: seq<T>) {
    forall i, j :: 0 <= i < j < |s| ==> s[i] != s[j]
  }

  function SetOf<T>(s: seq<T>): set<T> {
    set i | 0 <= i < |s| :: s[i]
  }

  lemma {:induction false} NoDupCardinality<T>(s: seq<T>)
    requires NoDup(s)
    ensures |SetOf(s)| == |s|
  {
    if s != [] {
      var init, last := s[..|s| - 1], s[|s| - 1];
      NoDupCardinality(init);
      assert SetOf(s) == SetOf(init) + {last};
    }
  }

  /** `s` without its first occurrence of `x`. */
  function RemoveFirst<T(==)>(s: seq<T>, x: T): (r: seq<T>)
    ensures x !in s ==> r == s
    ensures x in s ==> |r| == |s| - 1
  {
    if s == [] then [] else if s[0] == x then s[1..] else [s[0]] + RemoveFirst(s[1..], x)
  }

  lemma {:induction false} RemoveFirstNoDup<T>(s: seq<T>, x: T)
    requires NoDup(s)
    ensures NoDup(RemoveFirst(s, x))
    ensures forall y :: y in RemoveFirst(s, x) <==> y in s && y != x
  {
    if s != [] {
      assert s == [s[0]] + s[1..];
      if s[0] != x {
        RemoveFirstNoDup(s[1..], x);
        assert s[0] !in s[1..];
      }
    }
  }

  lemma {:induction false} RemoveFirstSplices<T>(s: seq<T>, i: nat, x: T)
    requires i < |s| && s[i] == x && x !in s[..i]
    ensures RemoveFirst(s, x) == s[..i] + s[i + 1..]
  {
    if i > 0 {
      assert s[..i] == [s[0]] + s[1..][..i - 1];
      RemoveFirstSplices(s[1..], i - 1, x);
    }
  }
}
