/** The storage buckets files are uploaded to: a bucket maps object paths to
    files. */
module ObjectStorage {
  import opened Wrappers

  /** A browser `File`: its name, size in bytes and MIME type. */
  datatype FileBlob = FileBlob(name: string, size: nat, mimeType: string)

  /** The error an upload without `upsert` gets when the path is taken. */
  const DuplicateMessage: string := "The resource already exists"

  /** The path prefix of a public object URL. */
  const PublicPrefix: string := "/storage/v1/object/public/"

  /** `getPublicUrl(path)`: the project URL, the public prefix, the bucket
      and the path. */
  function PublicUrl(base: string, bucket: string, path: string): (url: string)
    ensures |url| >= |path| && url[|url| - |path|..] == path
  {
    base + PublicPrefix + bucket + "/" + path
  }

  /** Distinct paths of one bucket have distinct public URLs. */
  lemma PublicUrlInjective(base: string, bucket: string, p1: string, p2: string)
    requires PublicUrl(base, bucket, p1) == PublicUrl(base, bucket, p2)
    ensures p1 == p2
  {
    var prefix := base + PublicPrefix + bucket + "/";
    assert PublicUrl(base, bucket, p1) == prefix + p1;
    assert PublicUrl(base, bucket, p2) == prefix + p2;
    assert p1 == (prefix + p1)[|prefix|..];
    assert p2 == (prefix + p2)[|prefix|..];
  }

  /** What an upload does to the objects: `fault` is how the call itself turns
      out; without `upsert` a taken path is refused. */
  function Stored(objects: map<string, FileBlob>, path: string, file: FileBlob, upsert: bool, fault: Outcome): (r: (map<string, FileBlob>, Outcome))
    ensures r.1.Success? <==> fault.Success? && (upsert || path !in objects)
    ensures r.1.Success? ==> r.0 == objects[path := file]
    ensures r.1.Failure? ==> r.0 == objects
  {
    if fault.Failure? then (objects, fault)
    else if !upsert && path in objects then (objects, Failure(DuplicateMessage))
    else (objects[path := file], Success)
  }

  /** Without `upsert` an upload never replaces an object that is there. */
  lemma NoOverwrite(objects: map<string, FileBlob>, path: string, file: FileBlob, fault: Outcome)
    requires path in objects
    ensures Stored(objects, path, file, false, fault).0[path] == objects[path]
  {
  }

  class Bucket {
    const name: string
    var objects: map<string, FileBlob>

    constructor (name: string)
      ensures this.name == name && objects == map[]
    {
      this.name := name;
      objects := map[];
    }

    /** `storage.from(name).upload(path, file, { upsert })`. */
    method Upload(path: string, file: FileBlob, upsert: bool, fault: Outcome) returns (result: Outcome)
      modifies this
      ensures (objects, result) == Stored(old(objects), path, file, upsert, fault)
    {
      if fault.Failure? {
        result := fault;
      } else if !upsert && path in objects {
        result := Failure(DuplicateMessage);
      } else {
        objects := objects[path := file];
        result := Success;
      }
    }
  }
}
