/** The client's side of a transfer: cutting a file into chunks, sending them, fetching them, putting them together. */
module Transfers {
  import opened Common
  import opened Cluster
  import opened Protocol

  function Concat(chunks: seq<Bytes>): Bytes {
    if chunks == [] then [] else Concat(chunks[..|chunks| - 1]) + chunks[|chunks| - 1]
  }

  lemma {:induction false} ConcatNext(chunks: seq<Bytes>, chunk: Bytes)
    ensures Concat(chunks + [chunk]) == Concat(chunks) + chunk
  {
    assert (chunks + [chunk])[..|chunks|] == chunks;
  }

  // ------------------------------------------------------------------- reading

  /** One call of Read: some bytes from the current position, as many as the system likes to deliver, at least one. */
  method Read(file: Bytes, pos: nat, buf: array<Byte>) returns (n: nat)
    requires pos < |file| && buf.Length > 0
    modifies buf
    ensures 0 < n <= buf.Length && pos + n <= |file| && buf[..n] == file[pos..pos + n]
  {
    var most := if |file| - pos < buf.Length then |file| - pos else buf.Length;
    n :| 0 < n <= most;
    for i := 0 to n
      invariant buf[..i] == file[pos..pos + i]
    {
      buf[i] := file[pos + i];
    }
  }

  /** However the system cuts the reads, the chunks are non-empty, fit the buffer, and add up to the file. */
  method ReadAndChunkFile(file: Bytes) returns (chunks: seq<Bytes>)
    ensures Concat(chunks) == file
    ensures forall i :: 0 <= i < |chunks| ==> 0 < |chunks[i]| <= CHUNK_SIZE
  {
    chunks := [];
    var buf := new Byte[CHUNK_SIZE](_ => 0);
    var pos := 0;
    while pos < |file|
      invariant pos <= |file| && Concat(chunks) == file[..pos]
      invariant forall i :: 0 <= i < |chunks| ==> 0 < |chunks[i]| <= CHUNK_SIZE
    {
      var n := Read(file, pos, buf);
      var chunk := buf[..n];
      ConcatNext(chunks, chunk);
      assert file[..pos + n] == file[..pos] + file[pos..pos + n];
      chunks := chunks + [chunk];
      pos := pos + n;
    }
    assert file[..pos] == file;
  }

  /** Every read but the last filled the buffer. */
  ghost predicate FullReads(chunks: seq<Bytes>) {
    forall i :: 0 <= i < |chunks| - 1 ==> |chunks[i]| == CHUNK_SIZE
  }

  lemma {:induction false} FullLength(chunks: seq<Bytes>)
    requires FullReads(chunks) && chunks != []
    ensures |Concat(chunks)| == (|chunks| - 1) * CHUNK_SIZE + |chunks[|chunks| - 1]|
  {
    var init := chunks[..|chunks| - 1];
    if init != [] { FullLength(init); }
  }

  /** The sizes that the metadata server records from the file size are the true ones exactly when all reads were full. */
  lemma {:induction false} RecordedSizesAreTrueIff(chunks: seq<Bytes>)
    requires forall i :: 0 <= i < |chunks| ==> 0 < |chunks[i]| <= CHUNK_SIZE
    ensures FullReads(chunks) <==>
      forall i :: 0 <= i < |chunks| ==> RecordedSize(|Concat(chunks)|, i) == |chunks[i]|
  {
    if FullReads(chunks) && chunks != [] {
      FullLength(chunks);
    }
    if forall i :: 0 <= i < |chunks| ==> RecordedSize(|Concat(chunks)|, i) == |chunks[i]| {
      forall i | 0 <= i < |chunks| - 1 ensures |chunks[i]| == CHUNK_SIZE {
        assert RecordedSize(|Concat(chunks)|, i + 1) == |chunks[i + 1]|;
      }
    }
  }

  /** What the metadata server records for the first `n` chunks together. */
  function RecordedSum(fileSize: int, n: nat): int {
    if n == 0 then 0 else RecordedSum(fileSize, n - 1) + RecordedSize(fileSize, n - 1)
  }

  lemma {:induction false} RecordedSumIs(fileSize: nat, n: nat)
    ensures n * CHUNK_SIZE <= fileSize ==> RecordedSum(fileSize, n) == n * CHUNK_SIZE
    ensures n > 0 && (n - 1) * CHUNK_SIZE <= fileSize <= n * CHUNK_SIZE ==> RecordedSum(fileSize, n) == fileSize
    ensures n > 0 && (n - 1) * CHUNK_SIZE > fileSize ==> RecordedSum(fileSize, n) < fileSize
  {
    if n > 0 { RecordedSumIs(fileSize, n - 1); }
  }

  lemma {:induction false} LengthBounds(chunks: seq<Bytes>)
    requires forall i :: 0 <= i < |chunks| ==> 0 < |chunks[i]| <= CHUNK_SIZE
    ensures |Concat(chunks)| <= |chunks| * CHUNK_SIZE
  {
    if chunks != [] { LengthBounds(chunks[..|chunks| - 1]); }
  }

  /**
   The recorded sizes add up to the file size exactly when the reads were full enough that no chunk is recorded as
   starting behind the end of the file; full reads are.  Otherwise they add up to less.
   */
  lemma {:induction false} RecordedSumIsTrueIff(chunks: seq<Bytes>)
    requires forall i :: 0 <= i < |chunks| ==> 0 < |chunks[i]| <= CHUNK_SIZE
    ensures RecordedSum(|Concat(chunks)|, |chunks|) == |Concat(chunks)|
       <==> chunks == [] || (|chunks| - 1) * CHUNK_SIZE <= |Concat(chunks)|
    ensures RecordedSum(|Concat(chunks)|, |chunks|) <= |Concat(chunks)|
    ensures FullReads(chunks) ==> RecordedSum(|Concat(chunks)|, |chunks|) == |Concat(chunks)|
  {
    LengthBounds(chunks);
    RecordedSumIs(|Concat(chunks)|, |chunks|);
    if FullReads(chunks) && chunks != [] { FullLength(chunks); }
  }

  // ------------------------------------------------------------------ uploading

  datatype Placement = Placement(chunk: ChunkId, nodes: seq<NodeId>)

  /** Whether a node acknowledges a store request. */
  type Send = (NodeId, ChunkId, Bytes) -> bool

  /** The replicas of one chunk are sent one after the other; the first failure ends it. */
  method UploadChunk(placement: Placement, data: Bytes, send: Send) returns (ok: bool, sent: seq<Upload>)
    ensures ok <==> forall j :: 0 <= j < |placement.nodes| ==> send(placement.nodes[j], placement.chunk, data)
    ensures |sent| <= |placement.nodes| && (ok ==> |sent| == |placement.nodes|)
    ensures forall j :: 0 <= j < |sent| ==> sent[j] == Upload(placement.chunk, placement.nodes[j], data)
    ensures !ok ==> sent != [] && !send(placement.nodes[|sent| - 1], placement.chunk, data)
  {
    sent := [];
    for j := 0 to |placement.nodes|
      invariant |sent| == j && forall i :: 0 <= i < j ==> sent[i] == Upload(placement.chunk, placement.nodes[i], data)
      invariant forall i :: 0 <= i < j ==> send(placement.nodes[i], placement.chunk, data)
    {
      sent := sent + [Upload(placement.chunk, placement.nodes[j], data)];
      if !send(placement.nodes[j], placement.chunk, data) { return false, sent; }
    }
    ok := true;
  }

  ghost predicate Acknowledged(placement: Placement, data: Bytes, send: Send) {
    forall j :: 0 <= j < |placement.nodes| ==> send(placement.nodes[j], placement.chunk, data)
  }

  /** The upload succeeds exactly when every replica of every chunk was acknowledged; a surplus on either side is ignored. */
  method UploadChunks(chunks: seq<Bytes>, placements: seq<Placement>, send: Send) returns (ok: bool)
    ensures ok <==> forall i :: 0 <= i < |placements| && i < |chunks| ==> Acknowledged(placements[i], chunks[i], send)
  {
    ok := true;
    for i := 0 to |placements|
      invariant i <= |chunks|
      invariant ok <==> forall k :: 0 <= k < i ==> Acknowledged(placements[k], chunks[k], send)
    {
      if i >= |chunks| { break; }
      var done, _ := UploadChunk(placements[i], chunks[i], send);
      ok := ok && done;
    }
  }

  // ------------------------------------------------------------------- fetching

  /** What a node answers to a request for a chunk: its bytes, or nothing usable. */
  type Fetch = (NodeId, ChunkId) -> Option<Bytes>

  function FirstAnswer(c: ChunkId, nodes: seq<NodeId>, fetch: Fetch): Option<Bytes> {
    if nodes == [] then None
    else if fetch(nodes[0], c).Some? then fetch(nodes[0], c)
    else FirstAnswer(c, nodes[1..], fetch)
  }

  method FetchChunkFromNodes(c: ChunkId, nodes: seq<NodeId>, fetch: Fetch) returns (r: Option<Bytes>)
    ensures r == FirstAnswer(c, nodes, fetch)
    ensures r.None? <==> forall n :: n in nodes ==> fetch(n, c).None?
    ensures r.Some? ==> exists i :: 0 <= i < |nodes| && r == fetch(nodes[i], c) && forall n :: n in nodes[..i] ==> fetch(n, c).None?
  {
    for i := 0 to |nodes|
      invariant FirstAnswer(c, nodes, fetch) == FirstAnswer(c, nodes[i..], fetch)
      invariant forall n :: n in nodes[..i] ==> fetch(n, c).None?
    {
      assert nodes[i..][1..] == nodes[i + 1..];
      var data := fetch(nodes[i], c);
      if data.Some? { return data; }
    }
    r := None;
  }

  /** When all answers agree, the first one is that answer, whichever nodes fail, unless all of them do. */
  lemma {:induction false} AnyAnswerWillDo(c: ChunkId, nodes: seq<NodeId>, fetch: Fetch, data: Bytes)
    requires forall n :: n in nodes && fetch(n, c).Some? ==> fetch(n, c).value == data
    ensures FirstAnswer(c, nodes, fetch) == if exists n :: n in nodes && fetch(n, c).Some? then Some(data) else None
  {
    if nodes != [] {
      assert nodes == [nodes[0]] + nodes[1..];
      if fetch(nodes[0], c).None? { AnyAnswerWillDo(c, nodes[1..], fetch, data); }
    }
  }

  // ----------------------------------------------------------------- downloading

  datatype ChunkResult = ChunkResult(index: nat, data: Bytes)

  function DataOf(results: seq<ChunkResult>): (chunks: seq<Bytes>)
    ensures |chunks| == |results| && forall i :: 0 <= i < |results| ==> chunks[i] == results[i].data
  {
    seq(|results|, i requires 0 <= i < |results| => results[i].data)
  }

  ghost predicate Sorted(results: seq<ChunkResult>) {
    forall i, j :: 0 <= i < j < |results| ==> results[i].index <= results[j].index
  }

  ghost predicate Increasing(results: seq<ChunkResult>) {
    forall i, j :: 0 <= i < j < |results| ==> results[i].index < results[j].index
  }

  /** Sorting by chunk index, as an insertion sort. */
  method SortByIndex(results: seq<ChunkResult>) returns (sorted: seq<ChunkResult>)
    ensures Sorted(sorted) && multiset(sorted) == multiset(results)
  {
    sorted := [];
    for i := 0 to |results|
      invariant Sorted(sorted) && multiset(sorted) == multiset(results[..i])
    {
      sorted := Insert(sorted, results[i]);
      assert results[..i + 1] == results[..i] + [results[i]];
    }
    assert results[..|results|] == results;
  }

  method Insert(sorted: seq<ChunkResult>, r: ChunkResult) returns (more: seq<ChunkResult>)
    requires Sorted(sorted)
    ensures Sorted(more) && multiset(more) == multiset(sorted) + multiset{r}
  {
    var k := |sorted|;
    while k > 0 && sorted[k - 1].index > r.index
      invariant 0 <= k <= |sorted|
      invariant forall j :: k <= j < |sorted| ==> r.index < sorted[j].index
    {
      k := k - 1;
    }
    more := sorted[..k] + [r] + sorted[k..];
    InsertedSorted(sorted, k, r);
    InsertedContents(sorted, k, r);
  }

  lemma {:induction false} InsertedContents<T>(s: seq<T>, k: nat, x: T)
    requires k <= |s|
    ensures multiset(s[..k] + [x] + s[k..]) == multiset(s) + multiset{x}
  {
    assert s == s[..k] + s[k..];
  }

  lemma {:induction false} InsertedSorted(sorted: seq<ChunkResult>, k: nat, r: ChunkResult)
    requires Sorted(sorted) && k <= |sorted| && (k > 0 ==> sorted[k - 1].index <= r.index)
    requires forall j :: k <= j < |sorted| ==> r.index < sorted[j].index
    ensures Sorted(sorted[..k] + [r] + sorted[k..])
  {
    var more := sorted[..k] + [r] + sorted[k..];
    forall i | 0 <= i < |more| ensures more[i] == if i < k then sorted[i] else if i == k then r else sorted[i - 1] {
    }
    forall i, j | 0 <= i < j < |more| ensures more[i].index <= more[j].index {
      if k > 0 && i < k { assert sorted[i].index <= sorted[k - 1].index; }
    }
  }

  /** The answer for one chunk of a file, as a result waiting to be sorted. */
  function Fetched(loc: ChunkLocation, fetch: Fetch): Option<ChunkResult> {
    match FirstAnswer(loc.chunkID, loc.nodeIDs, fetch)
    case None => None
    case Some(data) => Some(ChunkResult(loc.chunkIndex, data))
  }

  ghost predicate AllFetched(locations: seq<ChunkLocation>, fetch: Fetch) {
    forall i :: 0 <= i < |locations| ==> Fetched(locations[i], fetch).Some?
  }

  /** The results in the order of the locations. */
  ghost function ResultsInOrder(locations: seq<ChunkLocation>, fetch: Fetch): (results: seq<ChunkResult>)
    requires AllFetched(locations, fetch)
    ensures |results| == |locations|
    ensures forall i :: 0 <= i < |locations| ==> Some(results[i]) == Fetched(locations[i], fetch)
  {
    seq(|locations|, i requires 0 <= i < |locations| => Fetched(locations[i], fetch).value)
  }

  /** The chunk indices of the locations are strictly increasing. */
  ghost predicate InOrder(locations: seq<ChunkLocation>) {
    forall i, j :: 0 <= i < j < |locations| ==> locations[i].chunkIndex < locations[j].chunkIndex
  }

  lemma {:induction false} MultisetInit<T>(s: seq<T>)
    requires s != []
    ensures multiset(s[..|s| - 1]) == multiset(s) - multiset{s[|s| - 1]}
  {
    assert s == s[..|s| - 1] + [s[|s| - 1]];
  }

  /** A sorted list without repeated indices is determined by its elements. */
  lemma {:induction false} SortedIsUnique(a: seq<ChunkResult>, b: seq<ChunkResult>)
    requires Sorted(a) && multiset(a) == multiset(b)
    requires Increasing(b)
    ensures a == b
  {
    SameLength(a, b);
    if b != [] {
      var k := |b| - 1;
      SameLast(a, b);
      MultisetInit(a);
      MultisetInit(b);
      InitSorted(a, b);
      SortedIsUnique(a[..k], b[..k]);
      SameInit(a, b);
    }
  }

  lemma {:induction false} InitSorted(a: seq<ChunkResult>, b: seq<ChunkResult>)
    requires Sorted(a) && Increasing(b) && |a| == |b| > 0
    ensures Sorted(a[..|a| - 1]) && Increasing(b[..|b| - 1])
  {
  }

  lemma {:induction false} SameInit<T>(a: seq<T>, b: seq<T>)
    requires |a| == |b| > 0 && a[..|a| - 1] == b[..|b| - 1] && a[|a| - 1] == b[|b| - 1]
    ensures a == b
  {
    assert a == a[..|a| - 1] + [a[|a| - 1]] && b == b[..|b| - 1] + [b[|b| - 1]];
  }

  lemma {:induction false} SameLength<T>(a: seq<T>, b: seq<T>)
    requires multiset(a) == multiset(b)
    ensures |a| == |b|
  {
    assert |a| == |multiset(a)| && |b| == |multiset(b)|;
  }

  lemma {:induction false} SameLast(a: seq<ChunkResult>, b: seq<ChunkResult>)
    requires Sorted(a) && multiset(a) == multiset(b) && |a| == |b| > 0
    requires Increasing(b)
    ensures a[|a| - 1] == b[|b| - 1]
  {
    var k := |b| - 1;
    assert a[k] in multiset(b) && b[k] in multiset(a);
    var i :| 0 <= i < |b| && b[i] == a[k];
    var j :| 0 <= j < |a| && a[j] == b[k];
    assert b[k].index <= a[k].index;
  }

  function Range(n: nat): (r: seq<nat>)
    ensures |r| == n && forall i :: 0 <= i < n ==> r[i] == i
  {
    seq(n, i => i)
  }

  /** The elements of `s` at these positions, in this order. */
  function Pick<T>(s: seq<T>, order: seq<nat>): (r: seq<T>)
    requires forall i :: 0 <= i < |order| ==> order[i] < |s|
    ensures |r| == |order| && forall i :: 0 <= i < |order| ==> r[i] == s[order[i]]
  {
    seq(|order|, i requires 0 <= i < |order| => s[order[i]])
  }

  lemma {:induction false} PickMultiset<T>(s: seq<T>, a: seq<nat>, b: seq<nat>)
    requires forall i :: 0 <= i < |a| ==> a[i] < |s|
    requires forall i :: 0 <= i < |b| ==> b[i] < |s|
    requires multiset(a) == multiset(b)
    ensures multiset(Pick(s, a)) == multiset(Pick(s, b))
  {
    SameLength(a, b);
    if a != [] {
      var k := |a| - 1;
      assert a[k] in multiset(b);
      var j: nat :| j < |b| && b[j] == a[k];
      var rest := b[..j] + b[j + 1..];
      WithoutAt(b, j);
      MultisetInit(a);
      PickMultiset(s, a[..k], rest);
      assert Pick(s, a) == Pick(s, a[..k]) + [s[a[k]]];
      PickWithout(s, b, j);
    }
  }

  lemma {:induction false} PickWithout<T>(s: seq<T>, b: seq<nat>, j: nat)
    requires j < |b| && forall i :: 0 <= i < |b| ==> b[i] < |s|
    ensures multiset(Pick(s, b)) == multiset(Pick(s, b[..j] + b[j + 1..])) + multiset{s[b[j]]}
  {
    assert Pick(s, b) == Pick(s, b[..j]) + [s[b[j]]] + Pick(s, b[j + 1..]);
    assert Pick(s, b[..j] + b[j + 1..]) == Pick(s, b[..j]) + Pick(s, b[j + 1..]);
  }

  lemma {:induction false} WithoutAt<T>(s: seq<T>, j: nat)
    requires j < |s|
    ensures multiset(s[..j] + s[j + 1..]) == multiset(s) - multiset{s[j]}
  {
    assert s == s[..j] + [s[j]] + s[j + 1..];
  }

  /** Fetches complete in some order; the results are sorted by index and concatenated. */
  method DownloadChunks(locations: seq<ChunkLocation>, fetch: Fetch, order: seq<nat>) returns (r: Option<Bytes>)
    requires multiset(order) == multiset(Range(|locations|))
    ensures r.Some? <==> AllFetched(locations, fetch)
    ensures r.Some? && InOrder(locations) ==> r.value == Concat(DataOf(ResultsInOrder(locations, fetch)))
  {
    var results := FetchAll(locations, fetch, order);
    if results.None? { return None; }
    var sorted := SortByIndex(results.value);
    if InOrder(locations) {
      SortedIsUnique(sorted, ResultsInOrder(locations, fetch));
    }
    var total := ConcatAll(sorted);
    r := Some(total);
  }

  /** The shared list of results that the parallel fetches append to; one failure fails the download. */
  method FetchAll(locations: seq<ChunkLocation>, fetch: Fetch, order: seq<nat>) returns (r: Option<seq<ChunkResult>>)
    requires multiset(order) == multiset(Range(|locations|))
    ensures r.Some? <==> AllFetched(locations, fetch)
    ensures r.Some? ==> multiset(r.value) == multiset(ResultsInOrder(locations, fetch))
  {
    OrderInRange(order, |locations|);
    var results: seq<ChunkResult> := [];
    var failed := false;
    for k := 0 to |order|
      invariant failed <==> exists j :: 0 <= j < k && Fetched(locations[order[j]], fetch).None?
      invariant !failed ==> |results| == k && forall j :: 0 <= j < k ==> Some(results[j]) == Fetched(locations[order[j]], fetch)
    {
      var loc := locations[order[k]];
      var data := FetchChunkFromNodes(loc.chunkID, loc.nodeIDs, fetch);
      match data
      case None => failed := true;
      case Some(bytes) => results := results + [ChunkResult(loc.chunkIndex, bytes)];
    }
    EveryLocationFetched(locations, fetch, order);
    if failed { return None; }
    assert results == Pick(ResultsInOrder(locations, fetch), order);
    assert ResultsInOrder(locations, fetch) == Pick(ResultsInOrder(locations, fetch), Range(|locations|));
    PickMultiset(ResultsInOrder(locations, fetch), order, Range(|locations|));
    r := Some(results);
  }

  lemma {:induction false} OrderInRange(order: seq<nat>, n: nat)
    requires multiset(order) == multiset(Range(n))
    ensures |order| == n
    ensures forall i :: 0 <= i < |order| ==> order[i] < n
    ensures forall x: nat :: x < n ==> x in order
  {
    SameLength(order, Range(n));
    forall i | 0 <= i < |order| ensures order[i] < n { assert order[i] in multiset(Range(n)); }
    forall x: nat | x < n ensures x in order {
      assert Range(n)[x] == x;
      assert x in multiset(order);
    }
  }

  lemma {:induction false} EveryLocationFetched(locations: seq<ChunkLocation>, fetch: Fetch, order: seq<nat>)
    requires multiset(order) == multiset(Range(|locations|))
    ensures |order| == |locations| && forall i :: 0 <= i < |order| ==> order[i] < |locations|
    ensures AllFetched(locations, fetch) <==> forall j :: 0 <= j < |order| ==> Fetched(locations[order[j]], fetch).Some?
  {
    OrderInRange(order, |locations|);
    if forall j :: 0 <= j < |order| ==> Fetched(locations[order[j]], fetch).Some? {
      forall i | 0 <= i < |locations| ensures Fetched(locations[i], fetch).Some? {
        assert i in order;
        var j :| 0 <= j < |order| && order[j] == i;
      }
    }
  }

  method ConcatAll(results: seq<ChunkResult>) returns (total: Bytes)
    ensures total == Concat(DataOf(results))
  {
    total := [];
    for i := 0 to |results|
      invariant total == Concat(DataOf(results[..i]))
    {
      assert DataOf(results[..i + 1]) == DataOf(results[..i]) + [results[i].data];
      ConcatNext(DataOf(results[..i]), results[i].data);
      total := total + results[i].data;
    }
    assert results[..|results|] == results;
  }
}
