/** The chunk store of a data node over an abstract disk, and the transfer of a chunk between two of them. */
module ChunkStores {
  import opened Common
  import opened Cluster
  import opened Protocol

  datatype StoredChunk = StoredChunk(chunkID: ChunkId, size: nat, checksum: string, filePath: string)

  datatype StoreError = ChecksumMismatch | NotFound | DiskFault | Corrupted

  /** How a write to disk ends: completed, or failed with something left in the file. */
  datatype WriteOutcome = Written | Failed(left: Option<Bytes>)

  type Checksum = Bytes -> string

  ghost predicate Distinguishes(sum: Checksum) {
    forall a, b :: sum(a) == sum(b) ==> a == b
  }

  const EXTENSION: string := ".chunk"

  function ChunkPath(c: ChunkId): string { c + EXTENSION }

  function ChunkOf(file: string): Option<ChunkId> {
    if |file| >= |EXTENSION| && file[|file| - |EXTENSION|..] == EXTENSION then Some(file[..|file| - |EXTENSION|]) else None
  }

  lemma {:induction false} ChunkOfPath(c: ChunkId)
    ensures ChunkPath(c) == c + ".chunk" && ChunkOf(c + ".chunk") == Some(c)
  {
  }

  lemma {:induction false} PathOfChunk(file: string)
    requires ChunkOf(file).Some?
    ensures ChunkPath(ChunkOf(file).value) == file
  {
  }

  // ------------------------------------------------------------------- accounting

  /** The bytes that are stored. */
  ghost function TotalSize(stored: map<ChunkId, Bytes>): nat
    decreases |stored|
  {
    if stored == map[] then 0 else
      var c :| c in stored;
      |stored[c]| + TotalSize(stored - {c})
  }

  /** The total does not depend on the order of summation. */
  lemma {:induction false} TotalSizeWithout(stored: map<ChunkId, Bytes>, c: ChunkId)
    requires c in stored
    ensures TotalSize(stored) == |stored[c]| + TotalSize(stored - {c})
    decreases |stored|
  {
    var d :| d in stored && TotalSize(stored) == |stored[d]| + TotalSize(stored - {d});
    if d != c {
      TotalSizeWithout(stored - {d}, c);
      TotalSizeWithout(stored - {c}, d);
      assert stored - {d} - {c} == stored - {c} - {d};
    }
  }

  lemma {:induction false} TotalSizeWith(stored: map<ChunkId, Bytes>, c: ChunkId, data: Bytes)
    ensures TotalSize(stored[c := data]) == TotalSize(stored) + |data| - if c in stored then |stored[c]| else 0
  {
    TotalSizeWithout(stored[c := data], c);
    assert stored[c := data] - {c} == stored - {c};
    if c in stored { TotalSizeWithout(stored, c); } else { assert stored - {c} == stored; }
  }

  /** A change of the store that succeeded. */
  datatype Change = Stored(chunk: ChunkId, data: Bytes) | Deleted(chunk: ChunkId)

  predicate Possible(stored: map<ChunkId, Bytes>, x: Change) { x.Deleted? ==> x.chunk in stored }

  function Changed(stored: map<ChunkId, Bytes>, x: Change): map<ChunkId, Bytes> {
    if x.Stored? then stored[x.chunk := x.data] else stored - {x.chunk}
  }

  /** The usage counter after a change: the bytes of a chunk are counted whether or not it was there before. */
  function Counted(stored: map<ChunkId, Bytes>, used: int, x: Change): int
    requires Possible(stored, x)
  {
    if x.Stored? then used + |x.data| else used - |stored[x.chunk]|
  }

  /** The change stores over bytes that are there. */
  predicate StoresOver(stored: map<ChunkId, Bytes>, x: Change) {
    x.Stored? && x.chunk in stored && stored[x.chunk] != []
  }

  /** What one change adds to the error of the counter: the bytes stored over. */
  lemma {:induction false} DriftOfChange(stored: map<ChunkId, Bytes>, used: int, x: Change)
    requires Possible(stored, x)
    ensures Counted(stored, used, x) - TotalSize(Changed(stored, x))
         == used - TotalSize(stored) + if StoresOver(stored, x) then |stored[x.chunk]| else 0
  {
    if x.Stored? { TotalSizeWith(stored, x.chunk, x.data); } else { TotalSizeWithout(stored, x.chunk); }
  }

  ghost predicate AllPossible(stored: map<ChunkId, Bytes>, xs: seq<Change>)
    decreases |xs|
  {
    xs == [] || (Possible(stored, xs[0]) && AllPossible(Changed(stored, xs[0]), xs[1..]))
  }

  ghost function AllChanged(stored: map<ChunkId, Bytes>, xs: seq<Change>): map<ChunkId, Bytes>
    decreases |xs|
  {
    if xs == [] then stored else AllChanged(Changed(stored, xs[0]), xs[1..])
  }

  ghost function AllCounted(stored: map<ChunkId, Bytes>, used: int, xs: seq<Change>): int
    requires AllPossible(stored, xs)
    decreases |xs|
  {
    if xs == [] then used else AllCounted(Changed(stored, xs[0]), Counted(stored, used, xs[0]), xs[1..])
  }

  ghost predicate EverStoresOver(stored: map<ChunkId, Bytes>, xs: seq<Change>)
    decreases |xs|
  {
    xs != [] && (StoresOver(stored, xs[0]) || EverStoresOver(Changed(stored, xs[0]), xs[1..]))
  }

  /**
   Over any history of a store the counter never reports too little, and from a true counter it is true at the end
   exactly when no store met bytes of the same chunk; deleting the chunk afterwards does not mend it.
   */
  lemma {:induction false} UsageIsTrueIff(stored: map<ChunkId, Bytes>, used: int, xs: seq<Change>)
    requires AllPossible(stored, xs) && used >= TotalSize(stored)
    ensures AllCounted(stored, used, xs) >= TotalSize(AllChanged(stored, xs))
    ensures AllCounted(stored, used, xs) == TotalSize(AllChanged(stored, xs))
       <==> used == TotalSize(stored) && !EverStoresOver(stored, xs)
    decreases |xs|
  {
    if xs != [] {
      DriftOfChange(stored, used, xs[0]);
      UsageIsTrueIff(Changed(stored, xs[0]), Counted(stored, used, xs[0]), xs[1..]);
    }
  }

  // --------------------------------------------------------------------- the class

  class ChunkStore {
    const sum: Checksum
    var chunks: map<ChunkId, StoredChunk>
    var usedBytes: int
    var disk: map<string, Bytes>               // file name -> content
    ghost var stored: map<ChunkId, Bytes>      // what was last stored successfully

    /** The records describe what was stored; the disk may have gone bad behind their back. */
    ghost predicate Valid()
      reads this
    {
      && chunks.Keys == stored.Keys
      && (forall c :: c in chunks ==>
            chunks[c] == StoredChunk(c, |stored[c]|, sum(stored[c]), ChunkPath(c)))
    }

    /** The disk still holds what was stored. */
    ghost predicate Sound()
      reads this
    {
      forall c :: c in stored ==> ChunkPath(c) in disk && disk[ChunkPath(c)] == stored[c]
    }

    /** A restart: the records are rebuilt from the chunk files that can be read. */
    constructor (sum: Checksum, disk: map<string, Bytes>, unreadable: set<string>)
      ensures Valid() && this.sum == sum && this.disk == disk && usedBytes == TotalSize(stored)
      ensures forall c :: c in stored <==> ChunkPath(c) in disk && ChunkPath(c) !in unreadable
      ensures forall c :: c in stored ==> stored[c] == disk[ChunkPath(c)]
    {
      this.sum, this.disk := sum, disk;
      chunks, stored, usedBytes := map[], map[], 0;
      new;
      LoadExisting(unreadable);
    }

    method LoadExisting(unreadable: set<string>)
      requires Valid() && chunks == map[] && usedBytes == 0
      modifies `chunks, `usedBytes, `stored
      ensures Valid() && usedBytes == TotalSize(stored)
      ensures forall c :: c in stored <==> ChunkPath(c) in disk && ChunkPath(c) !in unreadable
      ensures forall c :: c in stored ==> stored[c] == disk[ChunkPath(c)]
    {
      var rest := disk.Keys;
      while rest != {}
        invariant rest <= disk.Keys && Valid() && usedBytes == TotalSize(stored)
        invariant forall c :: c in stored <==> ChunkPath(c) in disk && ChunkPath(c) !in rest && ChunkPath(c) !in unreadable
        invariant forall c :: c in stored ==> stored[c] == disk[ChunkPath(c)]
        decreases |rest|
      {
        var file :| file in rest;
        rest := rest - {file};
        var chunkID := ChunkOf(file);
        if chunkID.Some? && file !in unreadable {
          PathOfChunk(file);
          Record(chunkID.value, disk[file], file);
        }
        forall c | ChunkPath(c) == file ensures chunkID == Some(c) { ChunkOfPath(c); }
      }
    }

    /** Enter a chunk that is not yet known into the records. */
    method Record(c: ChunkId, data: Bytes, file: string)
      requires Valid() && c !in chunks && file == ChunkPath(c)
      modifies `chunks, `usedBytes, `stored
      ensures Valid() && stored == old(stored)[c := data]
      ensures usedBytes - TotalSize(stored) == old(usedBytes - TotalSize(stored))
    {
      TotalSizeWith(stored, c, data);
      chunks := chunks[c := StoredChunk(c, |data|, sum(data), file)];
      usedBytes := usedBytes + |data|;
      stored := stored[c := data];
    }

    /** A failed write leaves the records alone, whatever it did to the file. */
    method StoreChunk(c: ChunkId, data: Bytes, expected: string, outcome: WriteOutcome) returns (r: Result<(),
                      StoreError>)
      requires Valid()
      modifies this
      ensures Valid()
      ensures r.Err? && r.error == ChecksumMismatch <==> expected != "" && sum(data) != expected
      ensures r.Ok? <==> (expected != "" ==> sum(data) == expected) && outcome == Written
      ensures r.Ok? ==> stored == old(stored)[c := data] && disk == old(disk)[ChunkPath(c) := data]
      ensures r.Ok? ==> usedBytes == Counted(old(stored), old(usedBytes), Stored(c, data))
      ensures r.Ok? && old(usedBytes == TotalSize(stored)) ==>
        (usedBytes == TotalSize(stored) <==> c !in old(stored) || old(stored)[c] == [])
      ensures r.Err? ==> stored == old(stored) && chunks == old(chunks) && usedBytes == old(usedBytes)
      ensures r.Err? && r.error == ChecksumMismatch ==> disk == old(disk)
      ensures forall f :: f != ChunkPath(c) ==> (f in disk <==> f in old(disk)) && (f in disk ==> disk[f] == old(disk)[f])
    {
      var actual := sum(data);
      if expected != "" && actual != expected { return Err(ChecksumMismatch); }
      var chunkPath := ChunkPath(c);
      match outcome {
        case Failed(left) =>
          disk := if left.Some? then disk[chunkPath := left.value] else disk;
          return Err(DiskFault);
        case Written =>
          disk := disk[chunkPath := data];
      }
      DriftOfChange(stored, usedBytes, Stored(c, data));
      chunks := chunks[c := StoredChunk(c, |data|, actual, chunkPath)];
      usedBytes := usedBytes + |data|;
      stored := stored[c := data];
      r := Ok(());
    }

    /** With a checksum that tells contents apart, a read returns what was stored or fails, whatever the disk holds by now. */
    method GetChunk(c: ChunkId) returns (r: Result<(Bytes, string), StoreError>)
      requires Valid() && Distinguishes(sum)
      ensures c !in stored ==> r == Err(NotFound)
      ensures c in stored && ChunkPath(c) !in disk ==> r == Err(DiskFault)
      ensures c in stored && ChunkPath(c) in disk ==>
        r == if disk[ChunkPath(c)] == stored[c] then Ok((stored[c], sum(stored[c]))) else Err(Corrupted)
    {
      if c !in chunks { return Err(NotFound); }
      var meta := chunks[c];
      if meta.filePath !in disk { return Err(DiskFault); }
      var data := disk[meta.filePath];
      var checksum := sum(data);
      if checksum != meta.checksum { return Err(Corrupted); }
      r := Ok((data, checksum));
    }

    /** A file that is already gone does not keep the record from being deleted; one that cannot be removed does. */
    method DeleteChunk(c: ChunkId, removable: bool) returns (r: Result<(), StoreError>)
      requires Valid()
      modifies this
      ensures Valid()
      ensures r == if c !in old(stored) then Err(NotFound)
                   else if ChunkPath(c) in old(disk) && !removable then Err(DiskFault) else Ok(())
      ensures if r.Ok? then stored == old(stored) - {c} && disk == old(disk) - {ChunkPath(c)}
              else stored == old(stored) && disk == old(disk) && usedBytes == old(usedBytes)
      ensures r.Ok? ==> usedBytes == Counted(old(stored), old(usedBytes), Deleted(c))
    {
      if c !in chunks { return Err(NotFound); }
      var meta := chunks[c];
      if meta.filePath in disk && !removable { return Err(DiskFault); }
      disk := disk - {meta.filePath};
      usedBytes := usedBytes - meta.size;
      chunks := chunks - {c};
      stored := stored - {c};
      r := Ok(());
    }

    lemma {:induction false} SoundAfterStore(c: ChunkId, data: Bytes, before: map<ChunkId, Bytes>,
                                             diskBefore: map<string, Bytes>)
      requires stored == before[c := data] && disk == diskBefore[ChunkPath(c) := data]
      requires forall d :: d in before ==> ChunkPath(d) in diskBefore && diskBefore[ChunkPath(d)] == before[d]
      ensures Sound()
    {
      forall d | d in stored ensures ChunkPath(d) in disk && disk[ChunkPath(d)] == stored[d] {
        ChunkOfPath(d);
        ChunkOfPath(c);
      }
    }
  }

  /** A chunk that is delivered twice is counted twice. */
  method StoreTwice(sum: Checksum, c: ChunkId, data: Bytes) returns (reported: int, actual: nat)
    ensures reported == 2 * |data| && actual == |data|
  {
    var store := new ChunkStore(sum, map[], {});
    assert store.stored == map[];
    var first := store.StoreChunk(c, data, "", Written);
    var second := store.StoreChunk(c, data, "", Written);
    TotalSizeWith(map[], c, data);
    assert store.stored == map[c := data] && store.disk == map[ChunkPath(c) := data];
    reported, actual := store.usedBytes, |store.disk[ChunkPath(c)]|;
  }

  /** How the remote half of a transfer ends. */
  datatype Delivery = Delivery(connects: bool, outcome: WriteOutcome, answered: bool)

  /**
   A transfer that succeeds has put the source's bytes into the target; one that fails may have done so too, if only
   the answer got lost.  Nothing else of either store changes.
   */
  method TransferChunk(source: ChunkStore, target: ChunkStore, c: ChunkId, d: Delivery) returns (ok: bool)
    requires source != target && source.Valid() && target.Valid()
    requires source.sum == target.sum && Distinguishes(source.sum)
    modifies target
    ensures source.Valid() && target.Valid()
    ensures var delivered := d.connects && d.outcome == Written && c in source.stored &&
                             ChunkPath(c) in source.disk && source.disk[ChunkPath(c)] == source.stored[c];
      && ok == (delivered && d.answered)
      && target.stored == if delivered then old(target.stored)[c := source.stored[c]] else old(target.stored)
  {
    var read := source.GetChunk(c);
    if read.Err? { return false; }
    if !d.connects { return false; }
    var (data, checksum) := read.value;
    var r := target.StoreChunk(c, data, checksum, d.outcome);
    if !d.answered { return false; }
    ok := r.Ok?;
  }
}
