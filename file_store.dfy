/** Low-level file persistence: JSON files in one base directory, written
    atomically (temporary file, then replace or move), and read either as a
    schema-versioned envelope or as the bare legacy payload, which is then
    migrated in place.

    The file manager is a `FileSystem` object (files and directories), JSON
    coding is a `Codec` value whose functions stand for `JSONEncoder` and
    `JSONDecoder`, and `Faults` injects the I/O failures of each step. */
module FileStores {
  import opened Wrappers

  type Bytes = seq<bv8>

  datatype Envelope<T> = Envelope(schemaVersion: int, payload: T)

  /** Each case carries the URL of the file concerned. */
  datatype StoreError =
    | FailedToCreateDirectory(url: string)
    | FailedToWrite(url: string)
    | FailedToReplace(url: string)
    | FailedToRead(url: string)
    | FailedToDecode(url: string)

  /** A JSON coder for one type: encoding may fail, decoding fails on content
      of another shape. */
  datatype Codec<!T> = Codec(encode: T -> Option<Bytes>, decode: Bytes -> Option<T>)

  /** Decoding what was encoded gives the value back. */
  ghost predicate RoundTrips<T(!new)>(c: Codec<T>) {
    forall v :: c.encode(v).Some? ==> c.decode(c.encode(v).value) == Some(v)
  }

  /** Failures of the individual file-manager steps. An envelope-or-legacy
      read reads the file twice, once per shape, and each read may fail on
      its own. */
  datatype Faults = Faults(envelopeReadFails: bool, legacyReadFails: bool,
                           tempWriteFails: bool, replaceFails: bool, removeFails: bool)

  const NoFaults: Faults := Faults(false, false, false, false, false)

  /** `appendingPathComponent`. */
  function AppendPath(dir: string, name: string): string {
    dir + "/" + name
  }

  /** The temporary file used by an atomic write: hidden, in the same
      directory as the target, made unique by `uuid`. */
  function TempName(filename: string, uuid: string): string {
    "." + filename + ".tmp-" + uuid
  }

  /** The temporary file is never the target itself. */
  lemma TempIsNotTarget(base: string, filename: string, uuid: string)
    ensures AppendPath(base, TempName(filename, uuid)) != AppendPath(base, filename)
  {
    assert |AppendPath(base, TempName(filename, uuid))| > |AppendPath(base, filename)|;
  }

  /** The files after, and the outcome of, an atomic write of `data`
      (`None` when encoding failed) to `url` through `tmp`. */
  function AtomicWriteEffect(files: map<string, Bytes>, url: string, tmp: string,
                             data: Option<Bytes>, faults: Faults): (map<string, Bytes>, Outcome<StoreError>)
  {
    if data.None? then (files, Fail(FailedToWrite(url)))
    else if faults.tempWriteFails then (files, Fail(FailedToWrite(tmp)))
    else if faults.replaceFails then
      (if faults.removeFails then files[tmp := data.value] else files - {tmp}, Fail(FailedToReplace(url)))
    else ((files - {tmp})[url := data.value], Pass)
  }

  /** Atomicity: a failed write leaves the target exactly as it was (so a
      previous valid version still decodes), only a failed replace can leave
      the temporary file behind, and a successful write leaves the new
      content at the target and no temporary file. */
  lemma AtomicWriteKeepsTargetOnFailure(files: map<string, Bytes>, url: string, tmp: string,
                                        data: Option<Bytes>, faults: Faults)
    requires tmp != url
    ensures var (after, r) := AtomicWriteEffect(files, url, tmp, data, faults);
      && (r.Fail? ==> (url in after <==> url in files) && (url in files ==> after[url] == files[url]))
      && (r.Fail? && r.error.FailedToWrite? ==> after == files)
      && (r.Pass? ==> data.Some? && url in after && after[url] == data.value && tmp !in after)
      && (forall p :: p != url && p != tmp ==> (p in after <==> p in files) && (p in files ==> after[p] == files[p]))
  {
  }

  /** The outcome of reading and decoding the file at `url`. */
  function ReadOutcome<V>(files: map<string, Bytes>, url: string, decode: Bytes -> Option<V>,
                          readFails: bool): Result<V, StoreError>
  {
    if readFails || url !in files then Failure(FailedToRead(url))
    else match decode(files[url])
      case None => Failure(FailedToDecode(url))
      case Some(v) => Success(v)
  }

  /** The files after, and the result of, reading `url` as an envelope or a
      legacy payload, migrating the latter through `tmp`. */
  function EnvelopeOrLegacyEffect<T>(files: map<string, Bytes>, url: string, tmp: string, schemaVersion: int,
                                     codec: Codec<Envelope<T>>, legacyDecode: Bytes -> Option<T>,
                                     faults: Faults): (map<string, Bytes>, Result<Envelope<T>, StoreError>)
  {
    if url in files && !faults.envelopeReadFails && codec.decode(files[url]).Some? then
      (files, Success(codec.decode(files[url]).value))
    else if url in files && !faults.legacyReadFails && legacyDecode(files[url]).Some? then
      var env := Envelope(schemaVersion, legacyDecode(files[url]).value);
      var (after, w) := AtomicWriteEffect(files, url, tmp, codec.encode(env), faults);
      (after, if w.Pass? then Success(env) else Failure(w.error))
    else (files, Failure(FailedToDecode(url)))
  }

  /** The three paths of an envelope-or-legacy read: an envelope on disk is
      returned as stored, whatever its schema version, and nothing is
      written; a legacy payload comes back wrapped at the requested version
      and the write-back is an atomic write of that envelope; a missing file
      or content of neither shape is a decode failure that writes nothing,
      and so is a failed second read after a first that found no envelope. */
  lemma EnvelopeOrLegacyPaths<T>(files: map<string, Bytes>, url: string, tmp: string, schemaVersion: int,
                                 codec: Codec<Envelope<T>>, legacyDecode: Bytes -> Option<T>, faults: Faults)
    requires tmp != url
    ensures var (after, r) := EnvelopeOrLegacyEffect(files, url, tmp, schemaVersion, codec, legacyDecode, faults);
      var envelope := url in files && !faults.envelopeReadFails && codec.decode(files[url]).Some?;
      var legacy := url in files && !faults.legacyReadFails && legacyDecode(files[url]).Some?;
      && (url !in files ==> after == files && r == Failure(FailedToDecode(url)))
      && (envelope ==> after == files && r.Success? && r.value == codec.decode(files[url]).value)
      && (!envelope && legacy ==>
            (r.Success? ==> r.value == Envelope(schemaVersion, legacyDecode(files[url]).value)
                             && url in after && codec.encode(r.value) == Some(after[url]))
            && (r.Failure? ==> (url in after && after[url] == files[url])))
      && (!envelope && !legacy ==> after == files && r == Failure(FailedToDecode(url)))
  {
    var envelope := url in files && !faults.envelopeReadFails && codec.decode(files[url]).Some?;
    var legacy := url in files && !faults.legacyReadFails && legacyDecode(files[url]).Some?;
    if !envelope && legacy {
      var env := Envelope(schemaVersion, legacyDecode(files[url]).value);
      AtomicWriteKeepsTargetOnFailure(files, url, tmp, codec.encode(env), faults);
    }
  }

  /** Migration is idempotent: once a legacy file has been read (and
      rewritten as an envelope), a second read takes the envelope path,
      returns the same envelope and writes nothing, given the JSON round
      trip. */
  lemma MigrationIsIdempotent<T(!new)>(files: map<string, Bytes>, url: string, tmp1: string, tmp2: string,
                                       schemaVersion: int, codec: Codec<Envelope<T>>,
                                       legacyDecode: Bytes -> Option<T>)
    requires RoundTrips(codec) && tmp1 != url
    requires url in files && codec.decode(files[url]).None? && legacyDecode(files[url]).Some?
    requires codec.encode(Envelope(schemaVersion, legacyDecode(files[url]).value)).Some?
    ensures var (after1, r1) := EnvelopeOrLegacyEffect(files, url, tmp1, schemaVersion, codec, legacyDecode, NoFaults);
      var (after2, r2) := EnvelopeOrLegacyEffect(after1, url, tmp2, schemaVersion, codec, legacyDecode, NoFaults);
      && r1 == Success(Envelope(schemaVersion, legacyDecode(files[url]).value))
      && r2 == r1 && after2 == after1
  {
    var env := Envelope(schemaVersion, legacyDecode(files[url]).value);
    AtomicWriteKeepsTargetOnFailure(files, url, tmp1, codec.encode(env), NoFaults);
    var (after1, r1) := EnvelopeOrLegacyEffect(files, url, tmp1, schemaVersion, codec, legacyDecode, NoFaults);
    assert after1[url] == codec.encode(env).value;
    assert codec.decode(after1[url]) == Some(env);
  }

  /** The file manager: regular files with their bytes, and directories. */
  class FileSystem {
    var files: map<string, Bytes>
    var dirs: set<string>

    constructor (files: map<string, Bytes>, dirs: set<string>)
      ensures this.files == files && this.dirs == dirs
    {
      this.files := files;
      this.dirs := dirs;
    }

    /** `fileExists(atPath:)`: true for files and for directories. */
    predicate FileExists(path: string)
      reads this
    {
      path in files || path in dirs
    }

    method ReadFile(path: string, fails: bool) returns (r: Option<Bytes>)
      ensures r == if !fails && path in files then Some(files[path]) else None
    {
      if fails || path !in files {
        return None;
      }
      return Some(files[path]);
    }

    /** `Data.write(to:options: .atomic)`. */
    method WriteFile(path: string, data: Bytes, fails: bool) returns (ok: bool)
      modifies this
      ensures ok == !fails
      ensures files == if ok then old(files)[path := data] else old(files)
      ensures dirs == old(dirs)
    {
      if fails {
        return false;
      }
      files := files[path := data];
      return true;
    }

    /** `replaceItemAt(_:withItemAt:)` and `moveItem(at:to:)`: the source's
        content ends up at the target and the source is gone. */
    method MoveContent(source: string, target: string, fails: bool) returns (ok: bool)
      modifies this
      ensures ok == (!fails && source in old(files))
      ensures files == if ok then (old(files) - {source})[target := old(files)[source]] else old(files)
      ensures dirs == old(dirs)
    {
      if fails || source !in files {
        return false;
      }
      var data := files[source];
      files := (files - {source})[target := data];
      return true;
    }

    method RemoveItem(path: string, fails: bool) returns (ok: bool)
      modifies this
      ensures ok == (!fails && path in old(files))
      ensures files == if ok then old(files) - {path} else old(files)
      ensures dirs == old(dirs)
    {
      if fails || path !in files {
        return false;
      }
      files := files - {path};
      return true;
    }

    method CreateDirectory(path: string, fails: bool) returns (ok: bool)
      modifies this
      ensures ok == !fails
      ensures dirs == if ok then old(dirs) + {path} else old(dirs)
      ensures files == old(files)
    {
      if fails {
        return false;
      }
      dirs := dirs + {path};
      return true;
    }
  }

  /** The directory a store works in: the given base directory or the
      documents directory, optionally with a subdirectory appended. */
  function BaseUrl(documents: string, baseDirectory: Option<string>, subdirectory: Option<string>): string {
    var docs := if baseDirectory.Some? then baseDirectory.value else documents;
    if subdirectory.Some? then AppendPath(docs, subdirectory.value) else docs
  }

  class FileStore {
    const fs: FileSystem
    const baseUrl: string

    constructor (fs: FileSystem, baseUrl: string)
      ensures this.fs == fs && this.baseUrl == baseUrl
    {
      this.fs := fs;
      this.baseUrl := baseUrl;
    }

    /** `init`: creates the base directory when it is missing; failing to
        create it throws `failedToCreateDirectory`. */
    static method Open(fs: FileSystem, documents: string, baseDirectory: Option<string>,
                       subdirectory: Option<string>, createFails: bool)
      returns (r: Result<FileStore, StoreError>)
      modifies fs
      ensures fs.files == old(fs.files)
      ensures var base := BaseUrl(documents, baseDirectory, subdirectory);
        && (old(fs.FileExists(base)) ==> r.Success? && fs.dirs == old(fs.dirs))
        && (!old(fs.FileExists(base)) && createFails ==>
              r == Failure(FailedToCreateDirectory(base)) && fs.dirs == old(fs.dirs))
        && (!old(fs.FileExists(base)) && !createFails ==>
              r.Success? && fs.dirs == old(fs.dirs) + {base})
        && (r.Success? ==> fresh(r.value) && r.value.fs == fs && r.value.baseUrl == base)
    {
      var base := BaseUrl(documents, baseDirectory, subdirectory);
      if !fs.FileExists(base) {
        var ok := fs.CreateDirectory(base, createFails);
        if !ok {
          return Failure(FailedToCreateDirectory(base));
        }
      }
      var store := new FileStore(fs, base);
      return Success(store);
    }

    /** `url(for:)`: the base directory plus the file name. */
    function Url(filename: string): string {
      AppendPath(baseUrl, filename)
    }

    function TempUrl(filename: string, uuid: string): string {
      AppendPath(baseUrl, TempName(filename, uuid))
    }

    /** Whether anything is at the file's URL. */
    predicate Exists(filename: string)
      reads fs
    {
      fs.FileExists(Url(filename))
    }

    /** Reads and decodes a file: an unreadable file throws `failedToRead`,
        undecodable content `failedToDecode`; nothing is modified. */
    method ReadJson<V>(filename: string, decode: Bytes -> Option<V>, readFails: bool)
      returns (r: Result<V, StoreError>)
      ensures r == ReadOutcome(fs.files, Url(filename), decode, readFails)
      ensures r.Failure? ==> r.error == FailedToRead(Url(filename)) || r.error == FailedToDecode(Url(filename))
    {
      var fileUrl := Url(filename);
      var data := fs.ReadFile(fileUrl, readFails);
      if data.None? {
        return Failure(FailedToRead(fileUrl));
      }
      var v := decode(data.value);
      if v.None? {
        return Failure(FailedToDecode(fileUrl));
      }
      return Success(v.value);
    }

    /** Atomic write: encode, write a temporary file next to the target, then
        replace the target (or move the temporary file into place when there
        is no target). A failed replace or move removes the temporary file,
        best effort. */
    method WriteJsonAtomic<V>(value: V, encode: V -> Option<Bytes>, filename: string,
                              uuid: string, faults: Faults)
      returns (r: Outcome<StoreError>)
      modifies fs
      ensures (fs.files, r) ==
        AtomicWriteEffect(old(fs.files), Url(filename), TempUrl(filename, uuid), encode(value), faults)
      ensures fs.dirs == old(fs.dirs)
    {
      var fileUrl := Url(filename);
      var data := encode(value);
      if data.None? {
        return Fail(FailedToWrite(fileUrl));
      }
      var tempUrl := TempUrl(filename, uuid);
      TempIsNotTarget(baseUrl, filename, uuid);

      ghost var before := fs.files;
      var written := fs.WriteFile(tempUrl, data.value, faults.tempWriteFails);
      if !written {
        return Fail(FailedToWrite(tempUrl));
      }

      assert before[tempUrl := data.value] - {tempUrl} == before - {tempUrl};
      var moved: bool;
      if fs.FileExists(fileUrl) {
        moved := fs.MoveContent(tempUrl, fileUrl, faults.replaceFails);
      } else {
        moved := fs.MoveContent(tempUrl, fileUrl, faults.replaceFails);
      }
      if !moved {
        var _ := fs.RemoveItem(tempUrl, faults.removeFails);
        return Fail(FailedToReplace(fileUrl));
      }
      return Pass;
    }

    /** Reads the file as an envelope when it exists and decodes as one,
        returning it as stored. Otherwise reads it as the legacy payload,
        wraps it in an envelope of `schemaVersion`, writes that back
        atomically and returns it. */
    method ReadEnvelopeOrLegacy<T>(filename: string, schemaVersion: int, codec: Codec<Envelope<T>>,
                                   legacyDecode: Bytes -> Option<T>, uuid: string, faults: Faults)
      returns (r: Result<Envelope<T>, StoreError>)
      modifies fs
      ensures fs.dirs == old(fs.dirs)
      ensures (fs.files, r) == EnvelopeOrLegacyEffect(old(fs.files), Url(filename), TempUrl(filename, uuid),
                                                      schemaVersion, codec, legacyDecode, faults)
    {
      var fileUrl := Url(filename);
      TempIsNotTarget(baseUrl, filename, uuid);

      if Exists(filename) {
        var env := ReadJson(filename, codec.decode, faults.envelopeReadFails);
        if env.Success? {
          return env;
        }
      }

      var legacy := ReadJson(filename, legacyDecode, faults.legacyReadFails);
      if legacy.Failure? {
        return Failure(FailedToDecode(fileUrl));
      }

      var env := Envelope(schemaVersion, legacy.value);
      var written := WriteJsonAtomic(env, codec.encode, filename, uuid, faults);
      if written.Fail? {
        return Failure(written.error);
      }
      return Success(env);
    }
  }

}
