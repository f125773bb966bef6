/**
 Configuration files over a file system that may fail at every call. A write may report success and leave anything behind; a
 read may fail or fall short; a rename happens whole or not at all. A read that reports success returns the file's bytes.
 */
module ConfigStore {
  import opened Common

  const MAX_CONFIG_BYTES: nat := 512

  datatype ConfigStatus = Ok | NotMounted | NotFound | ReadFailed | InvalidConfig | WriteFailed | ReloadFailed

  datatype File = Regular(bytes: seq<byte>) | Special

  /** How one read call goes, should the file be there: `Short` is fread stopping early, with or without an error flag. */
  datatype ReadEnd = Complete | StatFails | OpenFails | Short(count: nat, flagged: bool) | CloseFails

  /** How writing a temporary file ends: what it reports and what is then in the file. */
  datatype WriteEnd = WriteEnd(reported: bool, left: Option<File>)

  datatype ReplaceEnds = ReplaceEnds(parentThere: bool, write: WriteEnd, verify: ReadEnd, renamed: bool)

  type Files = map<string, File>

  function Temporary(path: string): string { path + ".tmp" }

  lemma TemporaryDiffers(path: string)
    ensures Temporary(path) != path
  {
    assert |Temporary(path)| == |path| + 4;
  }

  function WithFile(files: Files, path: string, file: Option<File>): Files {
    if file.Some? then files[path := file.value] else files - {path}
  }

  function ReadStatus(mounted: bool, files: Files, path: string, end: ReadEnd): (ConfigStatus, seq<byte>) {
    if !mounted then (NotMounted, [])
    else if path !in files then (if end.StatFails? then ReadFailed else NotFound, [])
    else if end.StatFails? || files[path].Special? then (ReadFailed, [])
    else if |files[path].bytes| > MAX_CONFIG_BYTES then (InvalidConfig, [])
    else match end
      case Complete => (Ok, files[path].bytes)
      case Short(count, flagged) => if !flagged && count >= |files[path].bytes| then (Ok, files[path].bytes) else (ReadFailed, [])
      case _ => (ReadFailed, [])
  }

  /** The file system after the temporary file was written, and after the rename. */
  function Replaced(mounted: bool, files: Files, path: string, bytes: seq<byte>, ends: ReplaceEnds): (Files, ConfigStatus) {
    if !mounted then (files, NotMounted)
    else if bytes == [] || |bytes| > MAX_CONFIG_BYTES then (files, InvalidConfig)
    else if !ends.parentThere then (files, WriteFailed)
    else
      var written := WithFile(files, Temporary(path), ends.write.left);
      if !ends.write.reported || ReadStatus(mounted, written, Temporary(path), ends.verify) != (Ok, bytes) || !ends.renamed
      then (written, WriteFailed)
      else (written[path := written[Temporary(path)]] - {Temporary(path)}, Ok)
  }

  class PlatformConfigFileStore {
    var mounted: bool
    var files: Files

    constructor (files: Files)
      ensures !mounted && this.files == files
    {
      mounted, this.files := false, files;
    }

    method Begin(there: bool) returns (r: bool)
      modifies this`mounted
      ensures r == mounted == there
    {
      mounted := there;
      return mounted;
    }

    method Read(path: string, end: ReadEnd) returns (status: ConfigStatus, out: seq<byte>)
      ensures (status, out) == ReadStatus(mounted, files, path, end)
    {
      if !mounted {
        return NotMounted, [];
      }
      if end.StatFails? {
        return ReadFailed, [];
      }
      if path !in files {
        return NotFound, [];
      }
      if files[path].Special? {
        return ReadFailed, [];
      }
      var bytes := files[path].bytes;
      if |bytes| > MAX_CONFIG_BYTES {
        return InvalidConfig, [];
      }
      if end.OpenFails? {
        return ReadFailed, [];
      }
      var size := if end.Short? then Min(end.count, |bytes|) else |bytes|;
      var failed := end.Short? && end.flagged;
      var closed := !end.CloseFails?;
      if failed || !closed || size != |bytes| {
        return ReadFailed, [];
      }
      assert bytes[..size] == bytes;
      return Ok, bytes[..size];
    }

    method WriteTemporary(path: string, end: WriteEnd) returns (ok: bool)
      modifies this`files
      ensures files == WithFile(old(files), path, end.left) && ok == end.reported
    {
      files := WithFile(files, path, end.left);
      return end.reported;
    }

    method RenameFile(from: string, to: string, renamed: bool) returns (ok: bool)
      requires from in files && from != to
      modifies this`files
      ensures ok == renamed
      ensures files == if renamed then old(files)[to := old(files)[from]] - {from} else old(files)
    {
      if renamed {
        files := files[to := files[from]] - {from};
      }
      return renamed;
    }

    method Replace(path: string, bytes: seq<byte>, ends: ReplaceEnds) returns (status: ConfigStatus)
      modifies this`files
      ensures (files, status) == Replaced(mounted, old(files), path, bytes, ends)
    {
      if !mounted {
        return NotMounted;
      }
      if bytes == [] || |bytes| > MAX_CONFIG_BYTES {
        return InvalidConfig;
      }
      if !ends.parentThere {
        return WriteFailed;
      }
      var temporary := Temporary(path);
      TemporaryDiffers(path);
      var written := WriteTemporary(temporary, ends.write);
      if !written {
        return WriteFailed;
      }
      var verdict, verified := Read(temporary, ends.verify);
      if verdict != Ok || verified != bytes {
        return WriteFailed;
      }
      var renamed := RenameFile(temporary, path, ends.renamed);
      return if renamed then Ok else WriteFailed;
    }
  }

  /** A replace puts the whole new bytes at the destination or leaves it, and every other file but the temporary, as it was. */
  lemma ReplaceIsAtomic(mounted: bool, files: Files, path: string, bytes: seq<byte>, ends: ReplaceEnds, other: string)
    requires other != Temporary(path)
    ensures var (after, status) := Replaced(mounted, files, path, bytes, ends);
            && (status == Ok ==> path in after && after[path] == Regular(bytes))
            && (other != path || status != Ok ==> (other in after <==> other in files) && (other in after ==> after[other] == files[other]))
  {
    TemporaryDiffers(path);
  }

  // ---------------------------------------------------------------- a configuration service

  /** How a kind of configuration is written and read back. */
  datatype Codec<!C> = Codec(parse: seq<byte> -> Option<C>, encode: C -> seq<byte>)

  /** Whatever parses is written in a form that parses to the same again, and fits. */
  ghost predicate GoodCodec<C>(codec: Codec<C>) {
    forall b :: codec.parse(b).Some? ==>
      var e := codec.encode(codec.parse(b).value); codec.parse(e) == codec.parse(b) && 0 < |e| <= MAX_CONFIG_BYTES
  }

  datatype Loaded<C> = Loaded(status: ConfigStatus, config: Option<C>, changed: bool)

  /** The service's snapshot of the last verified configuration, and the status of its last read. */
  datatype Service<C> = Service(saved: C, status: ConfigStatus)

  datatype SaveEnds = SaveEnds(first: ReadEnd, replace: ReplaceEnds, second: ReadEnd)

  function Parsed<C>(codec: Codec<C>, read: (ConfigStatus, seq<byte>)): Loaded<C> {
    if read.0 != Ok then Loaded(read.0, None, false)
    else if codec.parse(read.1).None? then Loaded(InvalidConfig, None, false)
    else Loaded(Ok, codec.parse(read.1), false)
  }

  function Read<C>(codec: Codec<C>, mounted: bool, files: Files, path: string, end: ReadEnd): Loaded<C> {
    Parsed(codec, ReadStatus(mounted, files, path, end))
  }

  /** Taking over a configuration that was read. */
  function Adopted<C(==)>(s: Service<C>, l: Loaded<C>): (Service<C>, Loaded<C>)
    requires l.config.Some?
  {
    (Service(l.config.value, l.status), l.(changed := s.saved != l.config.value))
  }

  function Reloaded<C(==)>(codec: Codec<C>, s: Service<C>, mounted: bool, files: Files, path: string, end: ReadEnd): (Service<C>, Loaded<C>) {
    var l := Read(codec, mounted, files, path, end);
    if l.status == Ok then Adopted(s, l) else (s.(status := l.status), l)
  }

  /** The reread after a save that wrote, or did not need to. */
  function Confirmed<C(==)>(codec: Codec<C>, s: Service<C>, mounted: bool, files: Files, path: string, desired: C, end: ReadEnd): (Service<C>, Loaded<C>) {
    var l := Read(codec, mounted, files, path, end);
    if l.status != Ok || l.config != Some(desired) then (s.(status := l.status), Loaded(ReloadFailed, None, false)) else Adopted(s, l)
  }

  /** What the file holds is what is wanted, as far as the first read can tell. */
  predicate Holds<C(==)>(previous: Loaded<C>, desired: C) { previous.status == Ok && previous.config == Some(desired) }

  function Saved<C(==)>(codec: Codec<C>, s: Service<C>, mounted: bool, files: Files, path: string, json: seq<byte>, ends: SaveEnds):
    (r: (Files, Service<C>, Loaded<C>))
  {
    if codec.parse(json).None? then (files, s, Loaded(InvalidConfig, None, false))
    else
      var desired := codec.parse(json).value;
      var previous := Read(codec, mounted, files, path, ends.first);
      var s1 := s.(status := previous.status);
      if previous.status != Ok && previous.status != NotFound && previous.status != InvalidConfig then (files, s1, previous)
      else
        var (files', status) := if Holds(previous, desired) then (files, Ok) else Replaced(mounted, files, path, codec.encode(desired), ends.replace);
        if status != Ok then (files', s1, Loaded(status, None, false))
        else
          var (s2, l) := Confirmed(codec, s1, mounted, files', path, desired, ends.second);
          (files', s2, l)
  }

  class ConfigService<!C(==)> {
    const store: PlatformConfigFileStore
    const path: string
    const codec: Codec<C>
    var saved: C
    var status: ConfigStatus

    ghost function State(): Service<C>
      reads this
    {
      Service(saved, status)
    }

    constructor (store: PlatformConfigFileStore, path: string, codec: Codec<C>, default: C)
      ensures this.store == store && this.path == path && this.codec == codec && State() == Service(default, NotFound)
    {
      this.store, this.path, this.codec := store, path, codec;
      saved, status := default, NotFound;
    }

    method ReadConfig(end: ReadEnd) returns (r: Loaded<C>)
      modifies this`status
      ensures r == Read(codec, store.mounted, store.files, path, end) && status == r.status
    {
      var verdict, json := store.Read(path, end);
      r := if verdict != Ok then Loaded(verdict, None, false)
           else if codec.parse(json).None? then Loaded(InvalidConfig, None, false) else Loaded(Ok, codec.parse(json), false);
      status := r.status;
    }

    method Reload(end: ReadEnd) returns (r: Loaded<C>)
      modifies this
      ensures (State(), r) == Reloaded(codec, old(State()), store.mounted, store.files, path, end)
    {
      r := ReadConfig(end);
      if r.status == Ok {
        r := r.(changed := saved != r.config.value);
        saved := r.config.value;
      }
    }

    method Save(json: seq<byte>, ends: SaveEnds) returns (r: Loaded<C>)
      modifies this, store`files
      ensures (store.files, State(), r) == Saved(codec, old(State()), store.mounted, old(store.files), path, json, ends)
    {
      if codec.parse(json).None? {
        return Loaded(InvalidConfig, None, false);
      }
      var desired := codec.parse(json).value;
      var previous := ReadConfig(ends.first);
      if previous.status != Ok && previous.status != NotFound && previous.status != InvalidConfig {
        return previous;
      }
      if previous.status != Ok || previous.config != Some(desired) {
        var written := store.Replace(path, codec.encode(desired), ends.replace);
        if written != Ok {
          return Loaded(written, None, false);
        }
      }
      r := ReadConfig(ends.second);
      if r.status != Ok || r.config != Some(desired) {
        return Loaded(ReloadFailed, None, false);
      }
      r := r.(changed := saved != r.config.value);
      saved := r.config.value;
    }
  }

  // ---------------------------------------------------------------- one save

  /** The file holds this configuration. */
  predicate OnDisk<C(==)>(codec: Codec<C>, files: Files, path: string, c: C) {
    path in files && files[path].Regular? && codec.parse(files[path].bytes) == Some(c)
  }

  /** OK means what was asked for is on disk and in the snapshot; any other answer leaves the snapshot alone. */
  lemma SaveIsTransactional<C>(codec: Codec<C>, s: Service<C>, mounted: bool, files: Files, path: string, json: seq<byte>, ends: SaveEnds)
    ensures var (files', s', r) := Saved(codec, s, mounted, files, path, json, ends);
            if r.status == Ok then codec.parse(json).Some? && s'.saved == codec.parse(json).value && OnDisk(codec, files', path, s'.saved)
            else s'.saved == s.saved
  {}

  /** What the file may become: as it was, or the whole encoding of the configuration asked for. */
  lemma SaveKeepsFileWhole<C>(codec: Codec<C>, s: Service<C>, mounted: bool, files: Files, path: string, json: seq<byte>, ends: SaveEnds)
    ensures var files' := Saved(codec, s, mounted, files, path, json, ends).0;
            || ((path in files' <==> path in files) && (path in files ==> files'[path] == files[path]))
            || (codec.parse(json).Some? && path in files' && files'[path] == Regular(codec.encode(codec.parse(json).value)))
  {
    if codec.parse(json).Some? {
      ReplaceIsAtomic(mounted, files, path, codec.encode(codec.parse(json).value), ends.replace, path);
      TemporaryDiffers(path);
    }
  }

  /** A save whose first read finds the wanted value writes nothing at all, and succeeds if the reread does. */
  lemma RetryWritesNothing<C>(codec: Codec<C>, s: Service<C>, mounted: bool, files: Files, path: string, json: seq<byte>, ends: SaveEnds)
    requires codec.parse(json).Some? && OnDisk(codec, files, path, codec.parse(json).value)
    requires Read(codec, mounted, files, path, ends.first).status == Ok
    ensures var (files', s', r) := Saved(codec, s, mounted, files, path, json, ends);
            files' == files && (r.status == Ok <==> Read(codec, mounted, files, path, ends.second).status == Ok)
            && (r.status == Ok || r.status == ReloadFailed)
  {}

  /** After a save that wrote but could not confirm, the same save again finds the value and writes nothing. */
  lemma UnconfirmedSaveRetries<C>(codec: Codec<C>, s: Service<C>, mounted: bool, files: Files, path: string, json: seq<byte>, ends: SaveEnds, again: SaveEnds)
    requires GoodCodec(codec)
    requires Saved(codec, s, mounted, files, path, json, ends).2.status == ReloadFailed
    ensures var (files', s', r) := Saved(codec, s, mounted, files, path, json, ends);
            && codec.parse(json).Some? && OnDisk(codec, files', path, codec.parse(json).value)
            && (Read(codec, mounted, files', path, again.first).status == Ok ==>
                  Saved(codec, s', mounted, files', path, json, again).0 == files')
  {
    var desired := codec.parse(json).value;
    var previous := Read(codec, mounted, files, path, ends.first);
    if !Holds(previous, desired) {
      ReplaceIsAtomic(mounted, files, path, codec.encode(desired), ends.replace, path);
      TemporaryDiffers(path);
    }
  }

  // ---------------------------------------------------------------- runs

  datatype Op = SaveOp(json: seq<byte>, ends: SaveEnds) | ReloadOp(end: ReadEnd) | Remount(there: bool) | Restart

  datatype World<C> = World(mounted: bool, files: Files, service: Service<C>, stored: seq<C>)

  /** One call, or a restart, which keeps the files and forgets the snapshot. `stored` lists the values put on disk. */
  function Step<C(==)>(codec: Codec<C>, default: C, path: string, w: World<C>, op: Op): World<C> {
    match op
    case SaveOp(json, ends) =>
      var (files', s', r) := Saved(codec, w.service, w.mounted, w.files, path, json, ends);
      w.(files := files', service := s',
         stored := if codec.parse(json).Some? && (r.status == Ok || r.status == ReloadFailed) then w.stored + [codec.parse(json).value] else w.stored)
    case ReloadOp(end) => w.(service := Reloaded(codec, w.service, w.mounted, w.files, path, end).0)
    case Remount(there) => w.(mounted := there)
    case Restart => w.(mounted := false, service := Service(default, NotFound))
  }

  function Run<C(==)>(codec: Codec<C>, default: C, path: string, files: Files, ops: seq<Op>): World<C> {
    if ops == [] then World(false, files, Service(default, NotFound), [])
    else Step(codec, default, path, Run(codec, default, path, files, ops[..|ops| - 1]), ops[|ops| - 1])
  }

  /** The file is untouched until a value is stored, and from then on holds exactly the last one stored. */
  ghost predicate FileInv<C>(codec: Codec<C>, path: string, files: Files, w: World<C>) {
    if w.stored == [] then (path in w.files <==> path in files) && (path in files ==> w.files[path] == files[path])
    else OnDisk(codec, w.files, path, w.stored[|w.stored| - 1])
  }

  lemma SaveStores<C>(codec: Codec<C>, s: Service<C>, mounted: bool, files: Files, path: string, json: seq<byte>, ends: SaveEnds)
    requires GoodCodec(codec)
    ensures var (files', s', r) := Saved(codec, s, mounted, files, path, json, ends);
            if codec.parse(json).Some? && (r.status == Ok || r.status == ReloadFailed)
            then OnDisk(codec, files', path, codec.parse(json).value)
            else (path in files' <==> path in files) && (path in files ==> files'[path] == files[path])
  {
    if codec.parse(json).Some? {
      var desired := codec.parse(json).value;
      ReplaceIsAtomic(mounted, files, path, codec.encode(desired), ends.replace, path);
      TemporaryDiffers(path);
    }
  }

  /** A file as it was. */
  predicate SameFile(before: Files, after: Files, path: string) {
    (path in after <==> path in before) && (path in before ==> after[path] == before[path])
  }

  /** A save touches its own file and its temporary only. */
  lemma SaveLeavesOthers<C>(codec: Codec<C>, s: Service<C>, mounted: bool, files: Files, path: string, json: seq<byte>, ends: SaveEnds, other: string)
    requires other != path && other != Temporary(path)
    ensures SameFile(files, Saved(codec, s, mounted, files, path, json, ends).0, other)
  {
    if codec.parse(json).Some? {
      ReplaceIsAtomic(mounted, files, path, codec.encode(codec.parse(json).value), ends.replace, other);
    }
  }

  lemma StepLeavesOthers<C>(codec: Codec<C>, default: C, path: string, w: World<C>, op: Op, other: string)
    requires other != path && other != Temporary(path)
    ensures SameFile(w.files, Step(codec, default, path, w, op).files, other)
  {
    if op.SaveOp? { SaveLeavesOthers(codec, w.service, w.mounted, w.files, path, op.json, op.ends, other); }
  }

  lemma StepKeepsFile<C>(codec: Codec<C>, default: C, path: string, files: Files, w: World<C>, op: Op)
    requires GoodCodec(codec) && FileInv(codec, path, files, w)
    ensures FileInv(codec, path, files, Step(codec, default, path, w, op))
  {
    if op.SaveOp? { SaveStores(codec, w.service, w.mounted, w.files, path, op.json, op.ends); }
  }

  /** Whatever fails and however often the device restarts, the file always holds the whole of the last value stored. */
  lemma {:induction false} FileAlwaysWhole<C>(codec: Codec<C>, default: C, path: string, files: Files, ops: seq<Op>)
    requires GoodCodec(codec)
    ensures FileInv(codec, path, files, Run(codec, default, path, files, ops))
  {
    if ops != [] {
      FileAlwaysWhole(codec, default, path, files, ops[..|ops| - 1]);
      StepKeepsFile(codec, default, path, files, Run(codec, default, path, files, ops[..|ops| - 1]), ops[|ops| - 1]);
    }
  }
}
