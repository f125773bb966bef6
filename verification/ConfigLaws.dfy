/** What a save or a reload comes to, fault by fault: without faults it works, whatever was there before, and each fault has its status. */
module ConfigLaws {
  import opened Common
  import opened ConfigStore

  /** A read works exactly on a regular file of a mounted system, of 512 bytes at most, that is read through and closed. */
  lemma ReadWorks(mounted: bool, files: Files, path: string, end: ReadEnd)
    ensures var (status, bytes) := ReadStatus(mounted, files, path, end);
            && (status == Ok <==> && mounted && path in files && files[path].Regular? && |files[path].bytes| <= 512
                                  && (end == Complete || (end.Short? && !end.flagged && end.count >= |files[path].bytes|)))
            && bytes == (if status == Ok then files[path].bytes else [])
            && (status == NotMounted <==> !mounted)
            && (status == NotFound <==> mounted && path !in files && end != StatFails)
            && (status == InvalidConfig <==> mounted && path in files && end != StatFails && files[path].Regular? && |files[path].bytes| > 512)
            && status in {Ok, NotMounted, NotFound, InvalidConfig, ReadFailed}
  {}

  /** Every call works. */
  predicate Works(ends: ReplaceEnds, bytes: seq<byte>) {
    ends.parentThere && ends.write == WriteEnd(true, Some(Regular(bytes))) && ends.verify == Complete && ends.renamed
  }

  /** A replace reports success only if the file system is mounted, the size is right and the file could be written, verified and renamed. */
  lemma ReplaceWorks(mounted: bool, files: Files, path: string, bytes: seq<byte>, ends: ReplaceEnds)
    ensures var (after, status) := Replaced(mounted, files, path, bytes, ends);
            && (status == NotMounted <==> !mounted) && (status == InvalidConfig <==> mounted && !(1 <= |bytes| <= 512))
            && status in {Ok, NotMounted, InvalidConfig, WriteFailed}
            && (status == Ok ==> ends.parentThere && ends.write.reported && ends.write.left == Some(Regular(bytes)) && ends.renamed)
            && (status == Ok <== mounted && 1 <= |bytes| <= 512 && Works(ends, bytes))
            && (status == Ok ==> path in after && after[path] == Regular(bytes) && Temporary(path) !in after)
  {
    TemporaryDiffers(path);
  }

  /** A valid configuration, saved without a fault, is on disk and in the snapshot, whatever the file was before. */
  lemma FaultlessSave<C>(codec: Codec<C>, s: Service<C>, files: Files, path: string, json: seq<byte>, ends: SaveEnds)
    requires GoodCodec(codec) && codec.parse(json).Some? && ends.first == Complete && ends.second == Complete
    requires Works(ends.replace, codec.encode(codec.parse(json).value)) && (path in files ==> files[path].Regular?)
    ensures var c, (files', s', r) := codec.parse(json).value, Saved(codec, s, true, files, path, json, ends);
            && r == Loaded(Ok, Some(c), s.saved != c) && s' == Service(c, Ok)
            && (if OnDisk(codec, files, path, c) && |files[path].bytes| <= 512 then files' == files
                else path in files' && files'[path] == Regular(codec.encode(c)))
  {
    var bytes := codec.encode(codec.parse(json).value);
    ReplaceWorks(true, files, path, bytes, ends.replace);
    ReadWorks(true, files, path, Complete);
  }

  /** What does not parse changes nothing; a first read that fails other than by a missing or bad file writes nothing. */
  lemma RefusedSave<C>(codec: Codec<C>, s: Service<C>, mounted: bool, files: Files, path: string, json: seq<byte>, ends: SaveEnds)
    ensures var (files', s', r) := Saved(codec, s, mounted, files, path, json, ends);
            var first := ReadStatus(mounted, files, path, ends.first).0;
            && (codec.parse(json).None? ==> files' == files && s' == s && r.status == InvalidConfig)
            && (codec.parse(json).Some? && (first == NotMounted || first == ReadFailed) ==>
                  files' == files && s' == s.(status := first) && r.status == first)
            && (r.status != Ok ==> r.config == None && s'.saved == s.saved)
  {}

  /** A save that wants to write and cannot says why the write failed; one whose reread is not what it wrote says that. */
  lemma FailedSave<C>(codec: Codec<C>, s: Service<C>, mounted: bool, files: Files, path: string, json: seq<byte>, ends: SaveEnds)
    requires codec.parse(json).Some? && ReadStatus(mounted, files, path, ends.first).0 in {NotFound, InvalidConfig}
    ensures var (files', s', r) := Saved(codec, s, mounted, files, path, json, ends);
            var (written, status) := Replaced(mounted, files, path, codec.encode(codec.parse(json).value), ends.replace);
            var (again, bytes) := ReadStatus(mounted, written, path, ends.second);
            && files' == written
            && r.status == (if status != Ok then status
                            else if again == Ok && codec.parse(bytes) == codec.parse(json) then Ok else ReloadFailed)
  {}

  /** A reload takes over exactly what is on disk; a failed one keeps the snapshot and says why. */
  lemma ReloadMeans<C>(codec: Codec<C>, s: Service<C>, mounted: bool, files: Files, path: string, end: ReadEnd)
    ensures var (s', r) := Reloaded(codec, s, mounted, files, path, end);
            var (status, bytes) := ReadStatus(mounted, files, path, end);
            if status == Ok && codec.parse(bytes).Some? then
              r == Loaded(Ok, codec.parse(bytes), s.saved != codec.parse(bytes).value) && s' == Service(codec.parse(bytes).value, Ok)
            else r.status == (if status == Ok then InvalidConfig else status) && r.config == None && s' == s.(status := r.status)
  {}
}
