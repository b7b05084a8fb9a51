/** The two blob stores as objects, tied to the atomic steps of the publishing model. */
module BlobStores {
  import opened Wrappers
  import opened Metadata
  import opened Publishing
  import opened Keys

  datatype PutResult = Written(checksum: string) | Exists | PutFailed

  /** Blobs as files under a root directory. */
  class FsStore {
    const root: string
    const hash: Blob -> string
    var files: map<string, Blob>

    constructor (root: string, hash: Blob -> string)
      ensures files == map[] && this.root == root && this.hash == hash && Holds(map[])
    {
      this.root, this.hash, files := root, hash, map[];
    }

    ghost predicate HoldsAt(blobs: map<VersionKey, Blob>, key: VersionKey)
      reads this
    {
      && (FilePath(root, key) in files <==> key in blobs)
      && (key in blobs ==> files[FilePath(root, key)] == blobs[key])
    }

    /** The files of all admissible versions are exactly `blobs`. */
    ghost predicate Holds(blobs: map<VersionKey, Blob>)
      reads this
    {
      forall key :: Admissible(key) ==> HoldsAt(blobs, key)
    }

    /** Stage under a temporary name, hash, link to the final name, drop the temporary name.
        `copied` and `linked` say whether copying, and linking apart from finding the target
        taken, go well. On every path the staged file is gone afterwards. */
    method Put(key: VersionKey, upload: Blob, suffix: string, copied: bool, linked: bool,
               ghost blobs: map<VersionKey, Blob>) returns (r: PutResult)
      requires Admissible(key) && '/' !in suffix && StagingPath(root, key, suffix) !in files && Holds(blobs)
      modifies this
      ensures r == if !copied || !linked then PutFailed else if key in blobs then Exists else Written(hash(upload))
      ensures files == if r.Written? then old(files)[FilePath(root, key) := upload] else old(files)
      ensures Holds(if r.Written? then blobs[key := upload] else blobs)
    {
      var target := FilePath(root, key);
      var staged := StagingPath(root, key, suffix);
      StagingNeverTarget(root, key, suffix, key);
      assert HoldsAt(blobs, key);
      files := files[staged := upload];
      if !copied {
        files := files - {staged};
        assert files == old(files);
        return PutFailed;
      }
      var sum := hash(upload);
      if !linked || target in files {
        files := files - {staged};
        assert files == old(files);
        return if linked then Exists else PutFailed;
      }
      files := files[target := files[staged]];
      files := files - {staged};
      assert files == old(files)[target := upload];
      forall k | Admissible(k)
        ensures HoldsAt(blobs[key := upload], k)
      {
        assert old(HoldsAt(blobs, k));
        FilePathInjective(root, key, k);
      }
      return Written(sum);
    }

    method Open(key: VersionKey, ghost blobs: map<VersionKey, Blob>) returns (r: Option<Blob>)
      requires Admissible(key) && Holds(blobs)
      ensures r == if key in blobs then Some(blobs[key]) else None
    {
      assert HoldsAt(blobs, key);
      var path := FilePath(root, key);
      r := if path in files then Some(files[path]) else None;
    }
  }

  /** Blobs as objects in a bucket. */
  class S3Store {
    const hash: Blob -> string
    var objects: map<string, Blob>

    constructor (hash: Blob -> string)
      ensures objects == map[] && this.hash == hash && Holds(map[])
    {
      this.hash, objects := hash, map[];
    }

    ghost predicate HoldsAt(blobs: map<VersionKey, Blob>, key: VersionKey)
      reads this
    {
      && (ObjectKey(key) in objects <==> key in blobs)
      && (key in blobs ==> objects[ObjectKey(key)] == blobs[key])
    }

    ghost predicate Holds(blobs: map<VersionKey, Blob>)
      reads this
    {
      forall key :: Admissible(key) ==> HoldsAt(blobs, key)
    }

    /** Whether the object is there; None when the store cannot tell. */
    method Look(key: VersionKey, reachable: bool, ghost blobs: map<VersionKey, Blob>) returns (r: Option<bool>)
      requires Admissible(key) && Holds(blobs)
      ensures r == if reachable then Some(key in blobs) else None
    {
      assert HoldsAt(blobs, key);
      r := if reachable then Some(ObjectKey(key) in objects) else None;
    }

    /** The put writes unconditionally; the answer may be lost after the object has arrived. */
    method PutObject(key: VersionKey, upload: Blob, arrives: bool, ghost blobs: map<VersionKey, Blob>)
      requires Admissible(key) && Holds(blobs)
      modifies this
      ensures Holds(if arrives then blobs[key := upload] else blobs)
    {
      if arrives {
        objects := objects[ObjectKey(key) := upload];
        forall k | Admissible(k)
          ensures HoldsAt(blobs[key := upload], k)
        {
          assert old(HoldsAt(blobs, k));
          ObjectKeyInjective(key, k);
        }
      }
    }

    /** Stage and hash locally, look, then put; alone in the store this never overwrites. */
    method Put(key: VersionKey, upload: Blob, staged: bool, reachable: bool, arrives: bool, acknowledged: bool,
               ghost blobs: map<VersionKey, Blob>) returns (r: PutResult)
      requires Admissible(key) && Holds(blobs)
      modifies this
      ensures r == if !staged || !reachable then PutFailed
                   else if key in blobs then Exists
                   else if arrives && acknowledged then Written(hash(upload)) else PutFailed
      ensures Holds(if staged && reachable && key !in blobs && arrives then blobs[key := upload] else blobs)
    {
      if !staged {
        return PutFailed;
      }
      var sum := hash(upload);
      var found := Look(key, reachable, blobs);
      if found.None? {
        return PutFailed;
      }
      if found.value {
        return Exists;
      }
      PutObject(key, upload, arrives, blobs);
      return if arrives && acknowledged then Written(sum) else PutFailed;
    }
  }
}
