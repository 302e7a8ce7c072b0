/** Landing files and checksum-addressed objects: downloads, stores, materialisations. */
module Storage {
  import opened Wrappers
  import opened Catalog
  import opened Keys

  newtype Byte = b: int | 0 <= b < 256

  type Bytes = seq<Byte>

  type Sha = Bytes -> Digest

  /** A response body: the chunks that reading yields, and whether reading then raises. */
  datatype Stream = Stream(chunks: seq<Bytes>, breaks: bool)

  function Join(chunks: seq<Bytes>): Bytes {
    if chunks == [] then [] else Join(chunks[..|chunks| - 1]) + chunks[|chunks| - 1]
  }

  datatype StorageError = OutsideLanding | Transport | Incomplete | Integrity | InvalidUri | WrongBucket | NoKey

  /** Files never disappear and never change their content. */
  ghost predicate Grows<K, V>(before: map<K, V>, after: map<K, V>) {
    forall k :: k in before ==> k in after && after[k] == before[k]
  }

  /** A response that was read to its end, is not empty, and has the announced size, if any. */
  predicate IsComplete(response: Result<Stream, StorageError>, expectedSize: Option<nat>) {
    && response.Ok? && !response.value.breaks && Join(response.value.chunks) != []
    && (expectedSize.Some? ==> |Join(response.value.chunks)| == expectedSize.value)
  }

  /** The landing area. Final paths hold complete files; a temporary file is known by its handle only,
      because its name can never be that of a final path. */
  class Landing {
    var files: map<string, Bytes>
    var partials: map<nat, Bytes>
    var nextHandle: nat

    ghost predicate Valid()
      reads this
    {
      forall h :: h in partials ==> h < nextHandle
    }

    constructor ()
      ensures Valid() && files == map[] && partials == map[]
    {
      files, partials, nextHandle := map[], map[], 0;
    }

    method CreatePartial() returns (h: nat)
      requires Valid()
      modifies this`partials, this`nextHandle
      ensures Valid() && h !in old(partials) && partials == old(partials)[h := []]
    {
      h := nextHandle;
      partials := partials[h := []];
      nextHandle := nextHandle + 1;
    }

    /** Writes the body chunk by chunk to a temporary file and counts its bytes. */
    method CopyStream(h: nat, body: Stream) returns (size: nat, raised: bool)
      requires Valid() && h in partials && partials[h] == []
      modifies this`partials
      ensures Valid() && raised == body.breaks && size == |Join(body.chunks)|
      ensures partials == old(partials)[h := Join(body.chunks)]
    {
      size := 0;
      for k := 0 to |body.chunks|
        invariant size == |Join(body.chunks[..k])| && partials == old(partials)[h := Join(body.chunks[..k])]
      {
        assert body.chunks[..k + 1][..k] == body.chunks[..k];
        partials := partials[h := partials[h] + body.chunks[k]];
        size := size + |body.chunks[k]|;
      }
      assert body.chunks[..|body.chunks|] == body.chunks;
      raised := body.breaks;
    }

    method Unlink(h: nat)
      requires Valid()
      modifies this`partials
      ensures Valid() && partials == map x | x in old(partials) && x != h :: old(partials)[x]
    {
      partials := map x | x in partials && x != h :: partials[x];
    }

    /** Reuses a final file, or downloads it through a temporary one. Whatever goes wrong, the final path
        is either still absent or holds the whole body, and no temporary file is left. */
    method EnsureLocal(destination: string, inLanding: bool, response: Result<Stream, StorageError>,
                       expectedSize: Option<nat>)
      returns (r: Result<string, StorageError>)
      requires Valid()
      modifies this
      ensures Valid() && partials == old(partials) && Grows(old(files), files)
      ensures r.Err? ==> files == old(files)
      ensures r.Ok? ==> r.value == destination && inLanding && destination in files
      ensures r.Ok? && destination !in old(files) ==>
        IsComplete(response, expectedSize) && files == old(files)[destination := Join(response.value.chunks)]
      ensures r.Ok? && destination in old(files) ==> files == old(files)
      ensures r.Ok? <==> inLanding && (destination in old(files) || IsComplete(response, expectedSize))
    {
      if !inLanding {
        return Err(OutsideLanding);
      }
      if destination in files {
        return Ok(destination);
      }
      var h := CreatePartial();
      if response.Err? {
        r := Err(Transport);
      } else {
        var size, raised := CopyStream(h, response.value);
        if raised {
          r := Err(Transport);
        } else if size == 0 || (expectedSize.Some? && size != expectedSize.value) {
          r := Err(Incomplete);
        } else {
          files := files[destination := partials[h]];
          r := Ok(destination);
        }
      }
      Unlink(h);
    }
  }

  // ---------- objects ----------

  datatype ObjectMeta = ObjectMeta(sha256: Digest, partition: Partition, dataset: Dataset, service: Option<Service>)

  datatype Object = Object(content: Bytes, meta: ObjectMeta)

  function MetaOf(m: Metadata): ObjectMeta {
    ObjectMeta(m.checksum, m.partition, m.dataset, m.service)
  }

  /** The head check: size, checksum, partition and dataset of the object are those of the source. */
  predicate HeadMatches(o: Object, m: Metadata) {
    |o.content| == m.sizeBytes && o.meta.sha256 == m.checksum && o.meta.partition == m.partition && o.meta.dataset == m.dataset
  }

  /** The local file has the registered size and checksum. */
  predicate IsIntact(sha: Sha, m: Metadata, local: Option<Bytes>) {
    local.Some? && sha(local.value) == m.checksum && |local.value| == m.sizeBytes
  }

  /** Every key of a source version holds only content with the checksum in that key. */
  ghost predicate Addressed(sha: Sha, objects: map<string, Object>) {
    forall m: Metadata :: Identified(m) && !m.dataset.Unsupported? && S3Key(m).Ok? && S3Key(m).value in objects ==>
      sha(objects[S3Key(m).value].content) == m.checksum
  }

  /** The URI names an object of this bucket. */
  predicate Locates(bucket: string, objects: map<string, Object>, uri: Option<string>) {
    match ParseS3Uri(if uri.Some? then uri.value else "")
    case None => false
    case Some((b, key)) => b == bucket && key in objects
  }

  /** A body that was read to its end, with the right size and checksum. */
  predicate Passes(sha: Sha, body: Stream, checksum: Digest, size: nat) {
    !body.breaks && |Join(body.chunks)| == size && sha(Join(body.chunks)) == checksum
  }

  /** The body is all of the object that the URI names, read without an error. */
  predicate Delivers(objects: map<string, Object>, uri: string, body: Stream) {
    match ParseS3Uri(uri)
    case None => false
    case Some((_, key)) => key in objects && !body.breaks && Join(body.chunks) == objects[key].content
  }

  class S3Storage {
    const bucket: string
    const sha: Sha
    var objects: map<string, Object>

    constructor (bucket: string, sha: Sha)
      ensures this.bucket == bucket && this.sha == sha && objects == map[] && Addressed(sha, objects)
    {
      this.bucket, this.sha := bucket, sha;
      objects := map[];
    }

    /** Stores a verified local file under its key, unless the key is taken, and checks the head.
        `putFails` says whether uploading would raise. */
    method Store(m: Metadata, local: Option<Bytes>, putFails: bool) returns (r: Result<string, StorageError>)
      requires Identified(m) && !m.dataset.Unsupported? && Addressed(sha, objects)
      modifies this
      ensures Addressed(sha, objects) && Grows(old(objects), objects)
      ensures objects.Keys <= old(objects).Keys + (if S3Key(m).Ok? then {S3Key(m).value} else {})
      ensures r.Ok? <==>
        && local.Some? && sha(local.value) == m.checksum && S3Key(m).Ok?
        && S3Key(m).value in objects && HeadMatches(objects[S3Key(m).value], m)
      ensures r.Ok? ==> r.value == S3Uri(bucket, S3Key(m).value)
      ensures local.Some? && sha(local.value) == m.checksum && S3Key(m).Ok? && S3Key(m).value !in old(objects) ==>
        objects == if putFails then old(objects) else old(objects)[S3Key(m).value := Object(local.value, MetaOf(m))]
      ensures IsIntact(sha, m, local) && !putFails && S3Key(m).Ok? && S3Key(m).value !in old(objects) ==> r.Ok?
    {
      if local.None? || sha(local.value) != m.checksum {
        return Err(Integrity);
      }
      var k := S3Key(m);
      if k.Err? {
        return Err(NoKey);
      }
      var key := k.value;
      if key !in objects {
        if putFails {
          return Err(Transport);
        }
        var added := Object(local.value, MetaOf(m));
        AddressedPut(sha, objects, m, added);
        objects := objects[key := added];
      }
      if !HeadMatches(objects[key], m) {
        return Err(Integrity);
      }
      r := Ok(S3Uri(bucket, key));
    }

    /** Checks the head of an object that should have been stored. */
    method Inspect(m: Metadata) returns (r: Result<string, StorageError>)
      ensures r.Ok? <==> S3Key(m).Ok? && S3Key(m).value in objects && HeadMatches(objects[S3Key(m).value], m)
      ensures r.Ok? ==> r.value == S3Uri(bucket, S3Key(m).value)
      ensures r.Ok? ==>
        var head := objects[S3Key(m).value];
        && |head.content| == m.sizeBytes && head.meta.sha256 == m.checksum
        && head.meta.partition == m.partition && head.meta.dataset == m.dataset
    {
      var k := S3Key(m);
      if k.Err? {
        return Err(NoKey);
      }
      if k.value !in objects || !HeadMatches(objects[k.value], m) {
        return Err(Integrity);
      }
      r := Ok(S3Uri(bucket, k.value));
    }

    /** Writes a body to a temporary file and moves it to the final path if size and checksum are right. */
    method WriteVerified(landing: Landing, body: Stream, destination: string, checksum: Digest, size: nat)
      returns (r: Result<string, StorageError>)
      requires landing.Valid() && destination !in landing.files
      modifies landing
      ensures landing.Valid() && landing.partials == old(landing.partials)
      ensures r.Ok? <==> Passes(sha, body, checksum, size)
      ensures r.Ok? ==> r.value == destination
      ensures landing.files == if r.Ok? then old(landing.files)[destination := Join(body.chunks)] else old(landing.files)
    {
      var h := landing.CreatePartial();
      var got, raised := landing.CopyStream(h, body);
      if raised {
        r := Err(Transport);
      } else if got != size || sha(landing.partials[h]) != checksum {
        r := Err(Integrity);
      } else {
        landing.files := landing.files[destination := landing.partials[h]];
        r := Ok(destination);
      }
      landing.Unlink(h);
    }

    /** Restores one object to a final path, through a temporary file and only after checking size and
        checksum. `body` is what reading the object yields, which need not be all of it. */
    method Materialize(landing: Landing, uri: Option<string>, destination: string, checksum: Digest, size: nat,
                       body: Stream)
      returns (r: Result<string, StorageError>)
      requires landing.Valid()
      modifies landing
      ensures landing.Valid() && landing.partials == old(landing.partials) && Grows(old(landing.files), landing.files)
      ensures r.Err? ==> landing.files == old(landing.files)
      ensures r.Ok? ==> r.value == destination && destination in landing.files && sha(landing.files[destination]) == checksum
      ensures destination in old(landing.files) ==>
        landing.files == old(landing.files) && (r.Ok? <==> sha(old(landing.files)[destination]) == checksum)
      ensures destination !in old(landing.files) ==>
        && (r.Ok? <==> Locates(bucket, objects, uri) && Passes(sha, body, checksum, size))
        && (r.Ok? ==> landing.files == old(landing.files)[destination := Join(body.chunks)])
    {
      if destination in landing.files {
        return if sha(landing.files[destination]) == checksum then Ok(destination) else Err(Integrity);
      }
      var parsed := ParseS3Uri(if uri.Some? then uri.value else "");
      if parsed.None? {
        return Err(InvalidUri);
      }
      var (b, key) := parsed.value;
      if b != bucket {
        return Err(WrongBucket);
      }
      if key !in objects {
        return Err(Transport);
      }
      r := WriteVerified(landing, body, destination, checksum, size);
    }
  }

  /** Putting a verified file under its key keeps every key addressed by its checksum, because no other
      version has that key. */
  lemma AddressedPut(sha: Sha, objects: map<string, Object>, m: Metadata, o: Object)
    requires Addressed(sha, objects) && Identified(m) && !m.dataset.Unsupported? && S3Key(m).Ok?
    requires sha(o.content) == m.checksum
    ensures Addressed(sha, objects[S3Key(m).value := o])
  {
    forall n: Metadata | Identified(n) && !n.dataset.Unsupported? && S3Key(n).Ok? && S3Key(n) == S3Key(m)
      ensures n.checksum == m.checksum
    {
      KeyIsInjective(n, m);
    }
  }

  /** A source version that was stored once can be restored from its URI for ever after, whatever else is
      stored: the URI names an object of the bucket, and every body that delivers that object has the
      registered size and checksum, which is all that materialising it needs. */
  lemma StoredCanBeRestored(sha: Sha, bucket: string, stored: map<string, Object>, later: map<string, Object>,
                            m: Metadata, body: Stream)
    requires Identified(m) && !m.dataset.Unsupported? && S3Key(m).Ok? && UriSafe(m.checksum)
    requires bucket != "" && BucketSafe(bucket)
    requires Addressed(sha, stored) && S3Key(m).value in stored && HeadMatches(stored[S3Key(m).value], m)
    requires Grows(stored, later)
    ensures Locates(bucket, later, Some(S3Uri(bucket, S3Key(m).value)))
    ensures Delivers(later, S3Uri(bucket, S3Key(m).value), body) ==> Passes(sha, body, m.checksum, m.sizeBytes)
  {
    KeyParsesBack(m, bucket);
    assert S3Key(m).value in later && later[S3Key(m).value] == stored[S3Key(m).value];
  }

  // ---------- storage metadata ----------

  datatype StorageResult = StorageResult(backend: string, uri: Option<string>, version: Option<string>, storedAt: int)

  predicate IsDurable(r: StorageResult) {
    r.backend == "s3" && r.uri.Some? && r.uri.value != ""
  }

  function Merged(record: StorageResult, next: StorageResult): StorageResult {
    if next.backend == "local" && IsDurable(record) then record else next
  }

  /** The storage columns of one source record. */
  class SourceRecord {
    var storage: StorageResult

    constructor (at: int)
      ensures storage == StorageResult("local", None, None, at)
    {
      storage := StorageResult("local", None, None, at);
    }

    /** Records a result, unless it is a local one and the record already names a durable copy. */
    method Merge(next: StorageResult)
      modifies this
      ensures storage == Merged(old(storage), next)
      ensures next.backend == "local" && IsDurable(old(storage)) ==> storage == old(storage)
      ensures next.backend != "local" || !IsDurable(old(storage)) ==> storage == next
      ensures IsDurable(storage) <==> IsDurable(next) || (next.backend == "local" && IsDurable(old(storage)))
    {
      if next.backend == "local" && storage.backend == "s3" && storage.uri.Some? && storage.uri.value != "" {
        return;
      }
      storage := next;
    }
  }

  function MergedAll(record: StorageResult, results: seq<StorageResult>): StorageResult {
    if results == [] then record else Merged(MergedAll(record, results[..|results| - 1]), results[|results| - 1])
  }

  /** Once recorded with an S3 URI, a source is never downgraded: after any results of the two backends
      it is durable exactly when it was before or one of them is. */
  lemma {:induction false} DurabilityIsKept(record: StorageResult, results: seq<StorageResult>)
    requires forall i :: 0 <= i < |results| ==> results[i].backend == "local" || IsDurable(results[i])
    ensures IsDurable(MergedAll(record, results))
       <==> IsDurable(record) || exists i :: 0 <= i < |results| && IsDurable(results[i])
  {
    if results != [] {
      var n := |results| - 1;
      DurabilityIsKept(record, results[..n]);
      assert "local" != "s3";
    }
  }
}
