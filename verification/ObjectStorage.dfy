/** The object-storage contract. */
module ObjectStorage {
  import Utf8
  import opened Segments

  type Bytes = Utf8.Bytes

  const MAX_OBJECT_SIZE_BYTES: nat := 25 * 1024 * 1024

  datatype Metadata = Metadata(key: string, size: nat, contentType: string, sha256: string)

  datatype Stored = Stored(data: Bytes, metadata: Metadata)

  datatype Error = InvalidInput | ChecksumMismatch | NotFound | Conflict | Unavailable

  datatype Request =
    | Put(key: string, data: Bytes, contentType: string, sha256: string)
    | Head(key: string)
    | Get(key: string)

  datatype Outcome = Described(metadata: Metadata) | Content(data: Bytes) | Failed(error: Error)

  predicate Printable(s: string)
  {
    forall c :: c in s ==> c as int >= 32
  }

  predicate ValidKey(key: string)
  {
    && 1 <= |key| <= 1_024
    && key[0] !in {'/', '\\'}
    && (forall segment :: segment in Split(Slashes(key), '/') ==> segment !in {"", ".", ".."})
    && Printable(key)
  }

  predicate ValidSha(sha256: string)
  {
    |sha256| == 64 && forall c :: c in sha256 ==> '0' <= c <= '9' || 'a' <= c <= 'f'
  }

  predicate ValidInput(data: Bytes, contentType: string, sha256: string)
  {
    && |data| <= MAX_OBJECT_SIZE_BYTES
    && 1 <= |contentType| <= 255 && Printable(contentType)
    && ValidSha(sha256)
  }

  /** The metadata a put asks for. */
  function Expected(r: Request): Metadata
    requires r.Put?
  {
    Metadata(r.key, |r.data|, r.contentType, r.sha256)
  }

  /** The atomic meaning of one operation on an immutable store. */
  function Atomic(sha: Bytes -> string, objects: map<string, Stored>, r: Request): (map<string, Stored>, Outcome)
  {
    if !ValidKey(r.key) then (objects, Failed(InvalidInput)) else
    match r
    case Put(key, data, contentType, sha256) =>
      if !ValidInput(data, contentType, sha256) then (objects, Failed(InvalidInput))
      else if sha(data) != sha256 then (objects, Failed(ChecksumMismatch))
      else if key !in objects then (objects[key := Stored(data, Expected(r))], Described(Expected(r)))
      else if objects[key] == Stored(data, Expected(r)) then (objects, Described(Expected(r)))
      else (objects, Failed(Conflict))
    case Head(key) =>
      (objects, if key in objects then Described(objects[key].metadata) else Failed(NotFound))
    case Get(key) =>
      (objects,
       if key !in objects then Failed(NotFound)
       else if sha(objects[key].data) != objects[key].metadata.sha256 then Failed(ChecksumMismatch)
       else Content(objects[key].data))
  }

  /** What was stored stays, and only a put adds anything, under its own key. */
  lemma AtomicImmutable(sha: Bytes -> string, objects: map<string, Stored>, r: Request)
    ensures var after := Atomic(sha, objects, r).0;
            && (forall key :: key in objects ==> key in after && after[key] == objects[key])
            && (forall key :: key in after && key !in objects ==> r.Put? && key == r.key)
  {
  }

  /** A put that succeeded can be repeated, is described by head and read back by get; a different one conflicts. */
  lemma PutHolds(sha: Bytes -> string, objects: map<string, Stored>, r: Request, other: Request)
    requires r.Put? && other.Put? && other.key == r.key && Atomic(sha, objects, r).1.Described?
    ensures var after := Atomic(sha, objects, r).0;
            && Atomic(sha, after, r) == (after, Described(Expected(r)))
            && Atomic(sha, after, Head(r.key)).1 == Described(Expected(r))
            && Atomic(sha, after, Get(r.key)).1 == Content(r.data)
            && (Atomic(sha, after, other).1.Described? <==> other == r)
  {
  }

  ghost predicate Injective(sha: Bytes -> string)
  {
    forall x, y :: sha(x) == sha(y) ==> x == y
  }

  // ----- What is valid, and how each request is answered

  /**
   * A key is valid when it is neither empty nor too long, holds no control character, and no stretch between slashes of
   * either kind is empty or a dot segment; so it neither starts nor ends with a slash.
   */
  lemma {:induction false} KeyMeans(key: string)
    ensures var s := Slashes(key);
            ValidKey(key) <==>
            && 1 <= |key| <= 1_024 && (forall c :: c in key ==> c >= ' ')
            && !(exists a: nat, b: nat :: PieceAt(s, '/', a, b) && (s[a..b] == "" || s[a..b] == "." || s[a..b] == ".."))
  {
    hide Split, Slashes, PieceAt;
    var s := Slashes(key);
    PiecesMean(s, '/', "");
    PiecesMean(s, '/', ".");
    PiecesMean(s, '/', "..");
    if |key| > 0 {
      SlashesAt(key, 0);
      if s[0] == '/' {
        EmptyPiece(s, '/');
      }
    }
  }

  lemma InputMeans(data: Bytes, contentType: string, sha256: string)
    ensures ValidInput(data, contentType, sha256) <==>
            && |data| <= 26_214_400
            && 1 <= |contentType| <= 255 && (forall c :: c in contentType ==> c >= ' ')
            && |sha256| == 64 && (forall c :: c in sha256 ==> c in "0123456789abcdef")
  {
    var digits := "0123456789abcdef";
    assert forall i :: 0 <= i < 10 ==> digits[i] == '0' + i as char;
    assert forall i :: 10 <= i < 16 ==> digits[i] == 'a' + (i - 10) as char;
    forall c: char
      ensures c in digits <==> '0' <= c <= '9' || 'a' <= c <= 'f'
    {
      if '0' <= c <= '9' {
        assert digits[c as int - '0' as int] == c;
      }
      if 'a' <= c <= 'f' {
        assert digits[10 + (c as int - 'a' as int)] == c;
      }
    }
  }

  /** Which error a put reports, in the order of its checks, and when it succeeds. */
  lemma PutAnswers(sha: Bytes -> string, objects: map<string, Stored>, r: Request)
    requires r.Put?
    ensures var valid := ValidKey(r.key) && ValidInput(r.data, r.contentType, r.sha256);
            var asked := Stored(r.data, Metadata(r.key, |r.data|, r.contentType, r.sha256));
            var (after, outcome) := Atomic(sha, objects, r);
            && (outcome == Failed(InvalidInput) <==> !valid)
            && (outcome == Failed(ChecksumMismatch) <==> valid && sha(r.data) != r.sha256)
            && (outcome == Failed(Conflict) <==>
                  valid && sha(r.data) == r.sha256 && r.key in objects && objects[r.key] != asked)
            && (outcome.Described? <==>
                  valid && sha(r.data) == r.sha256 && (r.key in objects ==> objects[r.key] == asked))
            && (outcome.Described? ==> outcome.metadata == asked.metadata && after == objects[r.key := asked])
            && (!outcome.Described? ==> after == objects)
  {
    if r.key in objects {
      assert objects[r.key := objects[r.key]] == objects;
    }
  }

  /** How a head and a get are answered. */
  lemma ReadsAnswer(sha: Bytes -> string, objects: map<string, Stored>, key: string)
    ensures var (after, outcome) := Atomic(sha, objects, Head(key));
            && after == objects
            && (outcome == Failed(InvalidInput) <==> !ValidKey(key))
            && (outcome == Failed(NotFound) <==> ValidKey(key) && key !in objects)
            && (ValidKey(key) && key in objects ==> outcome == Described(objects[key].metadata))
    ensures var (after, outcome) := Atomic(sha, objects, Get(key));
            && after == objects
            && (outcome == Failed(InvalidInput) <==> !ValidKey(key))
            && (outcome == Failed(NotFound) <==> ValidKey(key) && key !in objects)
            && (outcome == Failed(ChecksumMismatch) <==>
                  ValidKey(key) && key in objects && sha(objects[key].data) != objects[key].metadata.sha256)
            && (outcome.Content? <==>
                  ValidKey(key) && key in objects && sha(objects[key].data) == objects[key].metadata.sha256)
            && (outcome.Content? ==> outcome.data == objects[key].data)
  {
  }
}
