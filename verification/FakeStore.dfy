/** The in-memory store, which is the atomic one. */
module FakeStore {
  import opened ObjectStorage

  class FakeObjectStorage {
    const sha: Bytes -> string
    var available: bool
    var bucketReady: bool
    var objects: map<string, Stored>

    constructor (sha: Bytes -> string, available: bool)
      ensures this.sha == sha && this.available == available && !bucketReady && objects == map[]
    {
      this.sha := sha;
      this.available := available;
      bucketReady, objects := false, map[];
    }

    method SetAvailable(value: bool)
      modifies this`available
      ensures available == value
    {
      available := value;
    }

    method EnsureBucket() returns (ok: bool)
      modifies this`bucketReady
      ensures ok == available
      ensures bucketReady == (available || old(bucketReady))
    {
      ok := available;
      if available {
        bucketReady := true;
      }
    }

    /** Whether an operation reaches the objects at all. */
    predicate Reachable()
      reads this`available, this`bucketReady
    {
      available && bucketReady
    }

    method Put(key: string, data: Bytes, contentType: string, sha256: string) returns (o: Outcome)
      modifies this`objects
      ensures !(available && bucketReady) ==> objects == old(objects) && o == Failed(Unavailable)
      ensures available && bucketReady ==>
        (objects, o) == Atomic(sha, old(objects), Request.Put(key, data, contentType, sha256))
    {
      if !Reachable() {
        return Failed(Unavailable);
      }
      if !ValidKey(key) || !ValidInput(data, contentType, sha256) {
        return Failed(InvalidInput);
      }
      if sha(data) != sha256 {
        return Failed(ChecksumMismatch);
      }
      var metadata := Metadata(key, |data|, contentType, sha256);
      if key in objects {
        var existing := objects[key];
        if existing.data == data && existing.metadata == metadata {
          return Described(existing.metadata);
        }
        return Failed(Conflict);
      }
      objects := objects[key := Stored(data, metadata)];
      o := Described(metadata);
    }

    method Head(key: string) returns (o: Outcome)
      ensures o == if available && bucketReady then Atomic(sha, objects, Request.Head(key)).1 else Failed(Unavailable)
    {
      if !Reachable() {
        return Failed(Unavailable);
      }
      if !ValidKey(key) {
        return Failed(InvalidInput);
      }
      o := if key in objects then Described(objects[key].metadata) else Failed(NotFound);
    }

    method Get(key: string) returns (o: Outcome)
      ensures o == if available && bucketReady then Atomic(sha, objects, Request.Get(key)).1 else Failed(Unavailable)
    {
      if !Reachable() {
        return Failed(Unavailable);
      }
      if !ValidKey(key) {
        return Failed(InvalidInput);
      }
      if key !in objects {
        return Failed(NotFound);
      }
      var stored := objects[key];
      if sha(stored.data) != stored.metadata.sha256 {
        return Failed(ChecksumMismatch);
      }
      o := Content(stored.data);
    }

    method Delete(key: string) returns (ok: bool)
      modifies this`objects
      ensures ok == (available && bucketReady && ValidKey(key))
      ensures objects == if ok then old(objects) - {key} else old(objects)
    {
      ok := available && bucketReady && ValidKey(key);
      if ok {
        objects := objects - {key};
      }
    }
  }
}
