/** Immutable option-set publication of `consensus_engine/full_chain_storage.py`, for one day.

A digest is an injective constructor, the encoders are deterministic and their readers undo
them, and a rename is atomic. A file being written may be left, by a crash, holding any prefix
of what was to be written; every state a crash can leave on disk is kept in a ghost trace.
*/
module Publication {
  import opened Wrappers

  type Bytes = seq<bv8>

  datatype Digest = Sha256(of: Bytes)

  datatype SourceItem = SourceItem(part: nat, digest: Digest)

  /** The identity of a set is the digest of exactly these facts. */
  datatype SetId = SetId(sources: seq<SourceItem>, completeDay: bool)

  datatype MemberName = Chain | OpenInterest | Manifest

  /** The paths of one day: its source parts, numbered in path order, its pointer, the members of
      each set, their temporary siblings, other files left in a set's directory, and scratch. */
  datatype Path =
    | Source(part: nat)
    | Pointer | PointerTemp
    | Member(set_: SetId, name: MemberName) | MemberTemp(set_: SetId, name: MemberName)
    | Unknown(set_: SetId, text: string)
    | Work(run: nat, name: MemberName) | WorkTemp(run: nat, name: MemberName)

  type Files = map<Path, Bytes>

  /** `current` is that the record names this day and contract version. */
  datatype PointerRecord = PointerRecord(current: bool, id: SetId, manifest: Digest)

  /** What a pointer file's text may read as: no object at all, or one whose set and manifest fields
      may be missing or name nothing. */
  datatype PointerText = NoObject | Object(current: bool, id: Option<SetId>, manifest: Option<Digest>)

  datatype MemberInfo = MemberInfo(digest: Digest, rows: nat)

  datatype ManifestRecord = ManifestRecord(
    current: bool, id: SetId, sources: seq<SourceItem>, chain: MemberInfo, openInterest: MemberInfo,
    missingData: bool, complete: bool, completeDay: bool)

  datatype Codec = Codec(
    merge: seq<Bytes> -> (Bytes, Bytes), rows: Bytes -> nat,
    writeManifest: ManifestRecord -> Bytes, readManifest: Bytes -> Option<ManifestRecord>,
    writePointer: PointerRecord -> Bytes, readPointer: Bytes -> PointerText)
  {
    /** What was written is read back, and no pointer's text starts another's. */
    ghost predicate Faithful() {
      && (forall m :: readManifest(writeManifest(m)) == Some(m))
      && (forall p :: readPointer(writePointer(p)) == Object(p.current, Some(p.id), Some(p.manifest)))
      && (forall p, q :: writePointer(p) <= writePointer(q) ==> p == q)
    }

    function Info(bytes: Bytes): MemberInfo { MemberInfo(Sha256(bytes), rows(bytes)) }
  }

  datatype Job = Job(parts: seq<nat>, completeDay: bool)

  predicate Rising(parts: seq<nat>) {
    forall i, j | 0 <= i < j < |parts| :: parts[i] < parts[j]
  }

  predicate AllPresent(files: Files, parts: seq<nat>) {
    forall i | 0 <= i < |parts| :: Source(parts[i]) in files
  }

  function SourceItems(files: Files, parts: seq<nat>): seq<SourceItem>
    requires AllPresent(files, parts)
  {
    seq(|parts|, i requires 0 <= i < |parts| => SourceItem(parts[i], Sha256(files[Source(parts[i])])))
  }

  function Parts(items: seq<SourceItem>): seq<nat> {
    seq(|items|, i requires 0 <= i < |items| => items[i].part)
  }

  // ----- The reader -------------------------------------------------------

  datatype Published = Published(id: SetId, manifest: ManifestRecord)

  predicate MemberReads(codec: Codec, files: Files, id: SetId, name: MemberName, info: MemberInfo) {
    Member(id, name) in files && codec.Info(files[Member(id, name)]) == info
  }

  /** The set a pointer file names, if it names one. */
  function Pointed(codec: Codec, files: Files): Option<SetId> {
    if Pointer !in files then None
    else
      match codec.readPointer(files[Pointer])
      case NoObject => None
      case Object(_, id, _) => id
  }

  /** The published set, or none when anything at all about it does not check out. */
  function Read(codec: Codec, files: Files): Option<Published> {
    match Pointed(codec, files)
    case None => None
    case Some(id) =>
      var pointer := codec.readPointer(files[Pointer]);
      if !pointer.current || Member(id, Manifest) !in files then None
      else if Some(Sha256(files[Member(id, Manifest)])) != pointer.manifest then None
      else ReadManifest(codec, files, id)
  }

  /** The same, once this set's manifest is the one pointed to. */
  function ReadManifest(codec: Codec, files: Files, id: SetId): Option<Published>
    requires Member(id, Manifest) in files
  {
    match codec.readManifest(files[Member(id, Manifest)])
    case None => None
    case Some(manifest) =>
      var parts := Parts(manifest.sources);
      if manifest.id != id || !manifest.current || !manifest.complete then None
      else if parts == [] || !Rising(parts) || !AllPresent(files, parts) then None
      else if SourceItems(files, parts) != manifest.sources then None
      else if SetId(manifest.sources, manifest.completeDay) != id then None
      else if !MemberReads(codec, files, id, Chain, manifest.chain) then None
      else if !MemberReads(codec, files, id, OpenInterest, manifest.openInterest) then None
      else if manifest.openInterest.rows == 0 || manifest.missingData then None
      else Some(Published(id, manifest))
  }

  /** The reader looks only at the pointer, the source parts and the pointed set. */
  lemma ReadLooksOnlyAt(codec: Codec, before: Files, after: Files)
    requires forall path: Path | path.Source? || path.Pointer? :: Same(before, after, path)
    requires Pointed(codec, before).Some? ==>
      forall name :: Same(before, after, Member(Pointed(codec, before).value, name))
    ensures Read(codec, after) == Read(codec, before)
  {
    assert Same(before, after, Pointer);
    if Pointed(codec, before).Some? {
      var id := Pointed(codec, before).value;
      assert Same(before, after, Member(id, Manifest)) && Same(before, after, Member(id, Chain));
      assert Same(before, after, Member(id, OpenInterest));
      if Member(id, Manifest) in before && codec.readManifest(before[Member(id, Manifest)]).Some? {
        SourcesAgree(before, after, Parts(codec.readManifest(before[Member(id, Manifest)]).value.sources));
      }
    }
  }

  predicate Same(before: Files, after: Files, path: Path) {
    (path in after <==> path in before) && (path in before && path in after ==> after[path] == before[path])
  }

  lemma SourcesAgree(before: Files, after: Files, parts: seq<nat>)
    requires forall path: Path | path.Source? :: Same(before, after, path)
    ensures AllPresent(after, parts) <==> AllPresent(before, parts)
    ensures AllPresent(before, parts) ==> SourceItems(after, parts) == SourceItems(before, parts)
  {
    forall i | 0 <= i < |parts| ensures Same(before, after, Source(parts[i])) {}
  }

  /** A file this publication names: a member of its set or one of its source parts. */
  predicate Named(p: Published, path: Path) {
    || (path.Member? && path.set_ == p.id)
    || (path.Source? && exists i :: 0 <= i < |p.manifest.sources| && p.manifest.sources[i].part == path.part)
  }

  /** All that stands behind a published set: a current pointer that names it and its manifest's very
      bytes; a manifest that is current, complete and its own; sources and members that are there with
      the digests it lists; and some open interest. */
  ghost predicate Vouched(codec: Codec, files: Files, p: Published) {
    var m := p.manifest;
    && Pointer in files && Member(p.id, Manifest) in files
    && codec.readPointer(files[Pointer]) == Object(true, Some(p.id), Some(Sha256(files[Member(p.id, Manifest)])))
    && codec.readManifest(files[Member(p.id, Manifest)]) == Some(m)
    && m.current && m.complete && !m.missingData && m.id == p.id == SetId(m.sources, m.completeDay)
    && m.sources != [] && (forall i, j | 0 <= i < j < |m.sources| :: m.sources[i].part < m.sources[j].part)
    && (forall i | 0 <= i < |m.sources| ::
         Source(m.sources[i].part) in files && m.sources[i].digest == Sha256(files[Source(m.sources[i].part)]))
    && Member(p.id, Chain) in files && m.chain == codec.Info(files[Member(p.id, Chain)])
    && Member(p.id, OpenInterest) in files && m.openInterest == codec.Info(files[Member(p.id, OpenInterest)])
    && codec.rows(files[Member(p.id, OpenInterest)]) > 0
  }

  /** The reader returns a publication exactly when all of that stands. */
  lemma ReadVouches(codec: Codec, files: Files, p: Published)
    ensures Read(codec, files) == Some(p) <==> Vouched(codec, files, p)
  {
    SourcesMatch(files, p.manifest.sources);
    hide SourceItems, Parts, Rising, AllPresent;
  }

  lemma SourcesMatch(files: Files, items: seq<SourceItem>)
    ensures Parts(items) == [] <==> items == []
    ensures Rising(Parts(items)) <==> forall i, j | 0 <= i < j < |items| :: items[i].part < items[j].part
    ensures AllPresent(files, Parts(items)) <==> forall i | 0 <= i < |items| :: Source(items[i].part) in files
    ensures AllPresent(files, Parts(items)) ==>
      (SourceItems(files, Parts(items)) == items <==>
        forall i | 0 <= i < |items| :: items[i].digest == Sha256(files[Source(items[i].part)]))
  {
    var parts := Parts(items);
    assert |parts| == |items|;
    forall i | 0 <= i < |items| ensures parts[i] == items[i].part {}
    if Rising(parts) {
      forall i, j | 0 <= i < j < |items| ensures items[i].part < items[j].part { assert parts[i] < parts[j]; }
    }
    if forall i, j | 0 <= i < j < |items| :: items[i].part < items[j].part {
      forall i, j | 0 <= i < j < |parts| ensures parts[i] < parts[j] { assert items[i].part < items[j].part; }
    }
    if AllPresent(files, parts) {
      forall i | 0 <= i < |items| ensures Source(items[i].part) in files { assert Source(parts[i]) in files; }
      var found := SourceItems(files, parts);
      forall i | 0 <= i < |items|
        ensures found[i] == SourceItem(items[i].part, Sha256(files[Source(items[i].part)]))
      {
        assert parts[i] == items[i].part;
      }
      if found == items {
        forall i | 0 <= i < |items| ensures items[i].digest == Sha256(files[Source(items[i].part)]) {
          assert found[i] == items[i];
        }
      }
      if forall i | 0 <= i < |items| :: items[i].digest == Sha256(files[Source(items[i].part)]) {
        forall i | 0 <= i < |items| ensures found[i] == items[i] {
          assert items[i].digest == Sha256(files[Source(items[i].part)]);
        }
      }
    }
    if forall i | 0 <= i < |items| :: Source(items[i].part) in files {
      forall i | 0 <= i < |parts| ensures Source(parts[i]) in files { assert Source(items[i].part) in files; }
    }
  }

  /** Two disks that read as the same publication hold the same bytes in its chain, its open interest
      and every source it names; with one pointer, in its manifest too. */
  lemma ReadersAgree(codec: Codec, f: Files, g: Files, p: Published, path: Path)
    requires Read(codec, f) == Some(p) && Read(codec, g) == Some(p) && Named(p, path)
    requires path == Member(p.id, Manifest) ==> Same(f, g, Pointer)
    ensures path in f && path in g && f[path] == g[path]
  {
    ReadVouches(codec, f, p);
    ReadVouches(codec, g, p);
    hide Read;
    if path.Source? {
      var i :| 0 <= i < |p.manifest.sources| && p.manifest.sources[i].part == path.part;
      assert path == Source(p.manifest.sources[i].part);
    } else {
      assert path == Member(p.id, path.name);
      assert path.name == Manifest || path.name == Chain || path.name == OpenInterest;
    }
  }

  /** A pointer publishes one thing or nothing: what else is on disk decides only which. */
  lemma PointerPublishesOne(codec: Codec, f: Files, g: Files)
    requires Read(codec, f).Some? && Read(codec, g).Some? && Same(f, g, Pointer)
    ensures Read(codec, g) == Read(codec, f)
  {
    ReadVouches(codec, f, Read(codec, f).value);
    ReadVouches(codec, g, Read(codec, g).value);
    hide Read;
  }

  /** Changing or removing any one file a publication names makes the day unreadable, whatever else
      happens to other files but the pointer. */
  lemma AnyChangeUnpublishes(codec: Codec, f: Files, g: Files, path: Path)
    requires Read(codec, f).Some? && Named(Read(codec, f).value, path)
    requires Same(f, g, Pointer) && !Same(f, g, path)
    ensures Read(codec, g) == None
  {
    hide Read, Named;
    if Read(codec, g).Some? {
      PointerPublishesOne(codec, f, g);
      ReadersAgree(codec, f, g, Read(codec, f).value, path);
    }
  }

  /** Removing any one of its source parts makes a published day unreadable. */
  lemma RemovedSourceUnpublishes(codec: Codec, files: Files, i: nat)
    requires Read(codec, files).Some? && i < |Read(codec, files).value.manifest.sources|
    ensures Read(codec, files - {Source(Read(codec, files).value.manifest.sources[i].part)}) == None
  {
    var p := Read(codec, files).value;
    var path := Source(p.manifest.sources[i].part);
    ReadVouches(codec, files, p);
    hide Read;
    AnyChangeUnpublishes(codec, files, files - {path}, path);
  }

  // ----- What a job would publish -----------------------------------------

  /** Every part is there once, and a complete day names every part there is. */
  predicate PartsFit(files: Files, job: Job) {
    && job.parts != [] && Rising(job.parts) && AllPresent(files, job.parts)
    && (job.completeDay ==> forall path: Path | path in files && path.Source? :: path.part in job.parts)
  }

  function Contents(files: Files, parts: seq<nat>): seq<Bytes>
    requires AllPresent(files, parts)
  {
    seq(|parts|, i requires 0 <= i < |parts| => files[Source(parts[i])])
  }

  datatype Output = Output(
      id: SetId, chain: Bytes, openInterest: Bytes, manifest: ManifestRecord, manifestBytes: Bytes,
      pointerBytes: Bytes) {
    function Bytes(name: MemberName): Bytes {
      match name
      case Chain => chain
      case OpenInterest => openInterest
      case Manifest => manifestBytes
    }
  }

  function Built(codec: Codec, files: Files, job: Job): Output
    requires AllPresent(files, job.parts)
  {
    var sources := SourceItems(files, job.parts);
    var id := SetId(sources, job.completeDay);
    var (chain, openInterest) := codec.merge(Contents(files, job.parts));
    var rows := codec.rows(openInterest);
    var manifest := ManifestRecord(
      true, id, sources, codec.Info(chain), codec.Info(openInterest), rows == 0, rows > 0, job.completeDay);
    var manifestBytes := codec.writeManifest(manifest);
    Output(id, chain, openInterest, manifest, manifestBytes,
      codec.writePointer(PointerRecord(true, id, Sha256(manifestBytes))))
  }

  predicate MemberFits(files: Files, output: Output, name: MemberName) {
    && (Member(output.id, name) in files ==> files[Member(output.id, name)] == output.Bytes(name))
    && (MemberTemp(output.id, name) in files ==> files[MemberTemp(output.id, name)] <= output.Bytes(name))
  }

  predicate MembersFit(files: Files, output: Output) {
    && (forall name: MemberName :: MemberFits(files, output, name))
    && (forall path: Path | path in files && path.Unknown? :: path.set_ != output.id)
  }

  /** A pointer stands in the way when it is no object, or already names this set. */
  predicate PointerFree(codec: Codec, files: Files, id: SetId) {
    Pointer in files ==> codec.readPointer(files[Pointer]).Object? && Pointed(codec, files) != Some(id)
  }

  predicate TempFits(files: Files, output: Output) {
    PointerTemp in files ==> files[PointerTemp] <= output.pointerBytes
  }

  datatype Outcome =
    | BadSources | AlreadyPublished | PointerBlocks | MemberConflicts | NotComplete
    | PointerTempConflicts | NewlyPublished

  /** How a publication left to finish ends, decided by the files it starts from. */
  function OutcomeOf(codec: Codec, files: Files, job: Job): Outcome {
    if !PartsFit(files, job) then BadSources
    else
      var output := Built(codec, files, job);
      if Read(codec, files).Some? && Read(codec, files).value.id == output.id then AlreadyPublished
      else if !PointerFree(codec, files, output.id) then PointerBlocks
      else if !MembersFit(files, output) then MemberConflicts
      else if codec.rows(output.openInterest) == 0 then NotComplete
      else if !TempFits(files, output) then PointerTempConflicts
      else NewlyPublished
  }

  /** Every source part is supplied in order and there; a complete day leaves out none that is. */
  ghost predicate SourcesStand(files: Files, job: Job) {
    && |job.parts| > 0 && (forall i, j | 0 <= i < j < |job.parts| :: job.parts[i] < job.parts[j])
    && (forall part | part in job.parts :: Source(part) in files)
    && (job.completeDay ==> forall part :: Source(part) in files ==> part in job.parts)
  }

  /** A file in the set's directory that its run may neither keep nor replace: a member with other
      bytes, a temporary sibling that does not start its member, or anything else. */
  ghost predicate InTheWay(files: Files, output: Output, path: Path) {
    && path in files
    && match path
       case Member(set_, name) => set_ == output.id && files[path] != output.Bytes(name)
       case MemberTemp(set_, name) => set_ == output.id && !(files[path] <= output.Bytes(name))
       case Unknown(set_, _) => set_ == output.id
       case _ => false
  }

  /** The whole set is there, vouched for by the pointer. */
  ghost predicate Stands(codec: Codec, files: Files, id: SetId) {
    exists p: Published :: p.id == id && Vouched(codec, files, p)
  }

  /** What a job asks for: a set named after just its sources' bytes, and a manifest that lists them
      and both members, complete exactly when some open interest was found. */
  lemma BuiltMeans(codec: Codec, files: Files, job: Job)
    requires AllPresent(files, job.parts)
    ensures var b := Built(codec, files, job); var m := b.manifest;
      && |b.id.sources| == |job.parts| && b.id.completeDay == job.completeDay
      && (forall i | 0 <= i < |job.parts| ::
           b.id.sources[i] == SourceItem(job.parts[i], Sha256(files[Source(job.parts[i])])))
      && m.current && m.id == b.id && m.sources == b.id.sources && m.completeDay == job.completeDay
      && m.chain == MemberInfo(Sha256(b.chain), codec.rows(b.chain))
      && m.openInterest == MemberInfo(Sha256(b.openInterest), codec.rows(b.openInterest))
      && (m.complete <==> codec.rows(b.openInterest) > 0) && m.missingData == !m.complete
      && b.manifestBytes == codec.writeManifest(m)
      && b.pointerBytes == codec.writePointer(PointerRecord(true, b.id, Sha256(b.manifestBytes)))
  {
  }

  lemma PartsStand(files: Files, job: Job)
    ensures PartsFit(files, job) <==> SourcesStand(files, job)
  {
    if PartsFit(files, job) {
      forall part | Source(part) in files && job.completeDay ensures part in job.parts {
        assert Source(part).Source? && Source(part).part == part;
      }
    }
    if SourcesStand(files, job) {
      forall i | 0 <= i < |job.parts| ensures Source(job.parts[i]) in files { assert job.parts[i] in job.parts; }
      forall path: Path | path in files && path.Source? && job.completeDay ensures path.part in job.parts {
        assert path == Source(path.part);
      }
    }
  }

  lemma StandsIffRead(codec: Codec, files: Files, id: SetId)
    ensures Stands(codec, files, id) <==> Read(codec, files).Some? && Read(codec, files).value.id == id
  {
    hide Read, Vouched;
    if Stands(codec, files, id) {
      var p: Published :| p.id == id && Vouched(codec, files, p);
      ReadVouches(codec, files, p);
    }
    if Read(codec, files).Some? { ReadVouches(codec, files, Read(codec, files).value); }
  }

  lemma ConflictsMean(files: Files, output: Output)
    ensures MembersFit(files, output) <==> !exists path :: InTheWay(files, output, path)
  {
    if MembersFit(files, output) {
      forall path ensures !InTheWay(files, output, path) {
        if path.Member? || path.MemberTemp? { assert MemberFits(files, output, path.name); }
      }
    }
    if !exists path :: InTheWay(files, output, path) {
      forall name: MemberName ensures MemberFits(files, output, name) {
        assert !InTheWay(files, output, Member(output.id, name));
        assert !InTheWay(files, output, MemberTemp(output.id, name));
      }
      forall path: Path | path in files && path.Unknown? ensures path.set_ != output.id {
        assert !InTheWay(files, output, path);
      }
    }
  }

  /** When each outcome is met, on the files themselves: whatever stands in the way is left alone, and
      a job publishes exactly when nothing does. */
  lemma OutcomeMeans(codec: Codec, files: Files, job: Job)
    ensures var outcome := OutcomeOf(codec, files, job);
      && (outcome == BadSources <==> !SourcesStand(files, job))
      && (SourcesStand(files, job) ==>
          && AllPresent(files, job.parts)
          && var b := Built(codec, files, job);
             var stands := Stands(codec, files, b.id);
             var blocked := Pointer in files &&
               (codec.readPointer(files[Pointer]) == NoObject || codec.readPointer(files[Pointer]).id == Some(b.id));
             var conflict := exists path :: InTheWay(files, b, path);
             var empty := codec.rows(b.openInterest) == 0;
             var torn := PointerTemp in files && !(files[PointerTemp] <= b.pointerBytes);
             && (outcome == AlreadyPublished <==> stands)
             && (outcome == PointerBlocks <==> !stands && blocked)
             && (outcome == MemberConflicts <==> !stands && !blocked && conflict)
             && (outcome == NotComplete <==> !stands && !blocked && !conflict && empty)
             && (outcome == PointerTempConflicts <==> !stands && !blocked && !conflict && !empty && torn)
             && (outcome == NewlyPublished <==> !stands && !blocked && !conflict && !empty && !torn))
  {
    PartsStand(files, job);
    if SourcesStand(files, job) {
      var b := Built(codec, files, job);
      StandsIffRead(codec, files, b.id);
      ConflictsMean(files, b);
    }
    hide Built, Read, Stands, InTheWay, MembersFit, PartsFit, SourcesStand;
  }

  predicate Succeeds(codec: Codec, files: Files, job: Job) {
    OutcomeOf(codec, files, job) in {AlreadyPublished, NewlyPublished}
  }

  predicate HasMembers(files: Files, output: Output) {
    forall name: MemberName :: Member(output.id, name) in files && files[Member(output.id, name)] == output.Bytes(name)
  }

  // ----- What a run may leave on disk -------------------------------------

  /** `after` is `before` but for scratch, members of the new set that were missing and are now
      whole, a pointer temporary file that starts the new pointer, and the new pointer itself,
      which comes last. */
  ghost predicate Safe(codec: Codec, before: Files, after: Files, job: Job) {
    && Spared(before, after)
    && var outcome := OutcomeOf(codec, before, job);
       if outcome in {NotComplete, PointerTempConflicts, NewlyPublished}
       then Written(before, after, Built(codec, before, job), outcome == NewlyPublished)
       else Untouched(before, after)
  }

  ghost predicate Untouched(before: Files, after: Files) {
    forall path: Path | path.Member? || path.Pointer? || path.PointerTemp? :: Same(before, after, path)
  }

  /** What a run that fills the new set may change of members and pointer, and of the pointer only
      when it is to point. */
  ghost predicate Written(before: Files, after: Files, output: Output, pointing: bool) {
    && (forall path: Path | path.Member? && path.set_ != output.id :: Same(before, after, path))
    && (forall name: MemberName :: Filled(before, after, output, name))
    && (Same(before, after, Pointer) || (pointing && NewPointer(after, output)))
    && (Same(before, after, PointerTemp) || (pointing && TempFits(after, output)))
  }

  predicate Filled(before: Files, after: Files, output: Output, name: MemberName) {
    var path := Member(output.id, name);
    Same(before, after, path) || (path !in before && path in after && after[path] == output.Bytes(name))
  }

  predicate NewPointer(after: Files, output: Output) {
    Pointer in after && after[Pointer] == output.pointerBytes && HasMembers(after, output)
  }

  /** The whole new set with its pointer reads as published. */
  lemma NewPointerReads(codec: Codec, files: Files, job: Job)
    requires codec.Faithful() && PartsFit(files, job)
    requires var output := Built(codec, files, job); NewPointer(files, output) && codec.rows(output.openInterest) > 0
    ensures Read(codec, files) == Some(Published(Built(codec, files, job).id, Built(codec, files, job).manifest))
  {
    var output := Built(codec, files, job);
    assert Parts(output.manifest.sources) == job.parts;
    assert files[Member(output.id, Manifest)] == output.Bytes(Manifest);
    assert files[Member(output.id, Chain)] == output.Bytes(Chain);
    assert files[Member(output.id, OpenInterest)] == output.Bytes(OpenInterest);
    assert codec.readPointer(files[Pointer]) == Object(true, Some(output.id), Some(Sha256(output.manifestBytes)));
    assert codec.readManifest(output.manifestBytes) == Some(output.manifest);
  }

  lemma BuiltTheSame(codec: Codec, before: Files, after: Files, job: Job)
    requires forall path: Path | path.Source? :: Same(before, after, path)
    ensures PartsFit(after, job) <==> PartsFit(before, job)
    ensures AllPresent(after, job.parts) <==> AllPresent(before, job.parts)
    ensures AllPresent(before, job.parts) ==> Built(codec, after, job) == Built(codec, before, job)
  {
    SourcesAgree(before, after, job.parts);
    if AllPresent(before, job.parts) {
      assert Contents(after, job.parts) == Contents(before, job.parts) by {
        forall i | 0 <= i < |job.parts| ensures Same(before, after, Source(job.parts[i])) {}
      }
    }
    forall path: Path | path.Source? ensures path in after <==> path in before {
      assert Same(before, after, path);
    }
  }

  /** At every state a run may leave, the reader returns just what it did before the run, or the
      complete new publication. */
  lemma ReaderSeesOldOrNew(codec: Codec, before: Files, after: Files, job: Job)
    requires codec.Faithful() && Safe(codec, before, after, job)
    ensures || Read(codec, after) == Read(codec, before)
            || (OutcomeOf(codec, before, job) == NewlyPublished
                && Read(codec, after) ==
                   Some(Published(Built(codec, before, job).id, Built(codec, before, job).manifest)))
  {
    BuiltTheSame(codec, before, after, job);
    hide Read, Built;
    var outcome := OutcomeOf(codec, before, job);
    if outcome == NewlyPublished && NewPointer(after, Built(codec, before, job)) {
      NewPointerReads(codec, after, job);
    } else {
      ReadLooksOnlyAt(codec, before, after);
    }
  }

  /** Files no run of this job ever writes: sources, others' leftovers, members' temporary siblings. */
  ghost predicate Spared(before: Files, after: Files) {
    forall path: Path | path.Source? || path.MemberTemp? || path.Unknown? :: Same(before, after, path)
  }

  lemma MembersStillFit(before: Files, after: Files, output: Output)
    requires Spared(before, after) && MembersFit(before, output)
    requires forall name: MemberName :: Filled(before, after, output, name)
    ensures MembersFit(after, output)
  {
    forall name: MemberName ensures MemberFits(after, output, name) {
      assert Filled(before, after, output, name) && MemberFits(before, output, name);
      assert Same(before, after, MemberTemp(output.id, name));
    }
    forall path: Path | path.Unknown? ensures path in before <==> path in after { assert Same(before, after, path); }
  }

  lemma UntouchedStillFits(before: Files, after: Files, output: Output)
    requires Spared(before, after) && Untouched(before, after)
    ensures MembersFit(after, output) <==> MembersFit(before, output)
  {
    forall name: MemberName ensures MemberFits(after, output, name) <==> MemberFits(before, output, name) {
      assert Same(before, after, Member(output.id, name)) && Same(before, after, MemberTemp(output.id, name));
    }
    forall path: Path | path.Unknown? ensures path in before <==> path in after { assert Same(before, after, path); }
  }

  /** However often a run is cut short, the next run of the same job over unchanged sources ends
      as the first would have; once published, it finds its own publication. */
  lemma CrashKeepsOutcome(codec: Codec, before: Files, after: Files, job: Job)
    requires codec.Faithful() && Safe(codec, before, after, job)
    ensures || OutcomeOf(codec, after, job) == OutcomeOf(codec, before, job)
            || (OutcomeOf(codec, before, job) == NewlyPublished && OutcomeOf(codec, after, job) == AlreadyPublished)
    ensures Succeeds(codec, after, job) <==> Succeeds(codec, before, job)
  {
    BuiltTheSame(codec, before, after, job);
    ReaderSeesOldOrNew(codec, before, after, job);
    if PartsFit(before, job) {
      var output := Built(codec, before, job);
      assert Spared(before, after);
      PointerAsBefore(codec, before, after, output);
      hide Built, Read, Filled, MembersFit, Spared, PartsFit, PointerFree, TempFits, Same, Pointed, NewPointer;
      if OutcomeOf(codec, before, job) in {NotComplete, PointerTempConflicts, NewlyPublished} {
        MembersStillFit(before, after, output);
      } else {
        UntouchedStillFits(before, after, output);
      }
    }
  }

  lemma PointerAsBefore(codec: Codec, before: Files, after: Files, output: Output)
    ensures Same(before, after, Pointer) ==>
      (PointerFree(codec, after, output.id) <==> PointerFree(codec, before, output.id))
    ensures Same(before, after, PointerTemp) ==> (TempFits(after, output) <==> TempFits(before, output))
  {
  }

  lemma SameThrough(before: Files, middle: Files, after: Files, path: Path)
    requires Same(before, middle, path) && Same(middle, after, path)
    ensures Same(before, after, path)
  {
  }

  lemma FilledThrough(before: Files, middle: Files, after: Files, output: Output, name: MemberName)
    requires Filled(before, middle, output, name) && Filled(middle, after, output, name)
    ensures Filled(before, after, output, name)
  {
  }

  lemma WrittenThrough(before: Files, middle: Files, after: Files, output: Output, pointing: bool)
    requires Written(before, middle, output, pointing) && Written(middle, after, output, pointing)
    ensures Written(before, after, output, pointing)
  {
    hide Same, Filled, TempFits;
    forall path: Path | path.Member? && path.set_ != output.id ensures Same(before, after, path) {
      SameThrough(before, middle, after, path);
    }
    forall name: MemberName ensures Filled(before, after, output, name) {
      FilledThrough(before, middle, after, output, name);
    }
    PointerThrough(before, middle, after, output);
    if Same(before, middle, PointerTemp) && Same(middle, after, PointerTemp) {
      SameThrough(before, middle, after, PointerTemp);
    } else if Same(middle, after, PointerTemp) {
      TempStays(middle, after, output);
    }
  }

  lemma TempStays(middle: Files, after: Files, output: Output)
    requires TempFits(middle, output) && Same(middle, after, PointerTemp)
    ensures TempFits(after, output)
  {
  }

  /** The new pointer, once there, is there still with its whole set. */
  lemma PointerThrough(before: Files, middle: Files, after: Files, output: Output)
    requires forall name: MemberName :: Filled(middle, after, output, name)
    ensures Same(before, middle, Pointer) && Same(middle, after, Pointer) ==> Same(before, after, Pointer)
    ensures NewPointer(middle, output) && Same(middle, after, Pointer) ==> NewPointer(after, output)
  {
    if NewPointer(middle, output) {
      forall name: MemberName
        ensures Member(output.id, name) in after && after[Member(output.id, name)] == output.Bytes(name)
      {
        assert Filled(middle, after, output, name);
      }
    }
  }

  lemma UntouchedIsWritten(before: Files, after: Files, output: Output)
    requires Untouched(before, after)
    ensures Written(before, after, output, true)
  {
    forall name: MemberName ensures Filled(before, after, output, name) {
      assert Same(before, after, Member(output.id, name));
    }
  }

  /** A run over what an earlier run left is safe from where the earlier one started. */
  lemma SafeAgain(codec: Codec, before: Files, middle: Files, after: Files, job: Job)
    requires codec.Faithful() && Safe(codec, before, middle, job) && Safe(codec, middle, after, job)
    ensures Safe(codec, before, after, job)
  {
    BuiltTheSame(codec, before, middle, job);
    CrashKeepsOutcome(codec, before, middle, job);
    BuildsSomething(codec, before, job);
    hide Built, Read, OutcomeOf, Same, Written;
    forall path: Path
      ensures Same(before, middle, path) && Same(middle, after, path) ==> Same(before, after, path)
    {
      if Same(before, middle, path) && Same(middle, after, path) { SameThrough(before, middle, after, path); }
    }
    var outcome := OutcomeOf(codec, before, job);
    if outcome in {NotComplete, PointerTempConflicts, NewlyPublished} {
      var output := Built(codec, before, job);
      if OutcomeOf(codec, middle, job) == AlreadyPublished { UntouchedIsWritten(middle, after, output); }
      WrittenThrough(before, middle, after, output, outcome == NewlyPublished);
    }
  }

  lemma BuildsSomething(codec: Codec, files: Files, job: Job)
    ensures OutcomeOf(codec, files, job) != BadSources ==> PartsFit(files, job)
  {
  }

  /** The files any number of interrupted runs of one job may leave, each starting where the one
      before it stopped. */
  ghost predicate LeftByRuns(codec: Codec, states: seq<Files>, job: Job) {
    forall i | 0 < i < |states| :: Safe(codec, states[i - 1], states[i], job)
  }

  /** After any number of interruptions a run left to finish succeeds exactly when the first
      would have. */
  lemma {:induction false} RerunsRecover(codec: Codec, states: seq<Files>, job: Job)
    requires codec.Faithful() && |states| > 0 && LeftByRuns(codec, states, job)
    ensures Succeeds(codec, states[|states| - 1], job) <==> Succeeds(codec, states[0], job)
    ensures || Read(codec, states[|states| - 1]) == Read(codec, states[0])
            || (OutcomeOf(codec, states[0], job) == NewlyPublished
                && Read(codec, states[|states| - 1]) ==
                   Some(Published(Built(codec, states[0], job).id, Built(codec, states[0], job).manifest)))
    decreases |states|
  {
    var last := |states| - 1;
    SafeFromFirst(codec, states, job);
    ReaderSeesOldOrNew(codec, states[0], states[last], job);
    CrashKeepsOutcome(codec, states[0], states[last], job);
  }

  lemma {:induction false} SafeFromFirst(codec: Codec, states: seq<Files>, job: Job)
    requires codec.Faithful() && |states| > 0 && LeftByRuns(codec, states, job)
    ensures Safe(codec, states[0], states[|states| - 1], job)
    decreases |states|
  {
    var last := |states| - 1;
    if last == 0 {
      UntouchedIsSafe(codec, states[0], states[0], job);
    } else {
      assert states[..last][|states[..last]| - 1] == states[last - 1];
      SafeFromFirst(codec, states[..last], job);
      SafeAgain(codec, states[0], states[last - 1], states[last], job);
    }
  }

  predicate Scratch(path: Path) { path.Work? || path.WorkTemp? }

  lemma UntouchedIsSafe(codec: Codec, before: Files, after: Files, job: Job)
    requires forall path: Path | !Scratch(path) :: Same(before, after, path)
    ensures Safe(codec, before, after, job)
  {
    BuildsSomething(codec, before, job);
    hide OutcomeOf, Built;
  }

  /** A pointer temporary file that another set's run had written in full, but not yet renamed,
      stops this job from publishing. */
  lemma ForeignPointerTempBlocks(codec: Codec, files: Files, job: Job, other: PointerRecord)
    requires codec.Faithful() && PartsFit(files, job)
    requires PointerTemp in files && files[PointerTemp] == codec.writePointer(other)
    requires other.id != Built(codec, files, job).id
    ensures OutcomeOf(codec, files, job) != NewlyPublished
  {
    var output := Built(codec, files, job);
    assert output.pointerBytes == codec.writePointer(PointerRecord(true, output.id, Sha256(output.manifestBytes)));
    hide Built;
  }

  // ----- The publisher ----------------------------------------------------

  /** Every way a crash may cut a write short, the whole write last. */
  function TornWrites(files: Files, path: Path, bytes: Bytes): seq<Files> {
    seq(|bytes| + 1, k requires 0 <= k <= |bytes| => files[path := bytes[..k]])
  }

  /** But for scratch and members of the new set that are whole, nothing has changed. */
  ghost predicate Filling(before: Files, files: Files, output: Output) {
    && (forall path: Path | !Scratch(path) && !(path.Member? && path.set_ == output.id) :: Same(before, files, path))
    && (forall name: MemberName :: Filled(before, files, output, name))
  }

  lemma FillingIsSafe(codec: Codec, before: Files, files: Files, job: Job)
    requires OutcomeOf(codec, before, job) in {NotComplete, PointerTempConflicts, NewlyPublished}
    requires AllPresent(before, job.parts) && Filling(before, files, Built(codec, before, job))
    ensures Safe(codec, before, files, job)
  {
    hide OutcomeOf, Built, Filled;
  }

  lemma PointingIsSafe(codec: Codec, before: Files, filled: Files, files: Files, job: Job)
    requires OutcomeOf(codec, before, job) == NewlyPublished
    requires AllPresent(before, job.parts) && Filling(before, filled, Built(codec, before, job))
    requires var output := Built(codec, before, job);
      && TempFits(files, output)
      && (forall path: Path | !path.Pointer? && !path.PointerTemp? :: Same(filled, files, path))
      && (Same(filled, files, Pointer) || NewPointer(files, output))
    ensures Safe(codec, before, files, job)
  {
    hide OutcomeOf, Built;
    var output := Built(codec, before, job);
    forall path: Path | Same(before, filled, path) && Same(filled, files, path) ensures Same(before, files, path) {}
    forall name: MemberName ensures Filled(before, files, output, name) {
      assert Filled(before, filled, output, name) && Same(filled, files, Member(output.id, name));
    }
  }

  class Publisher {
    const codec: Codec
    var files: Files
    ghost var trace: seq<Files>

    constructor (codec: Codec, files: Files)
      ensures this.codec == codec && this.files == files && trace == []
    {
      this.codec, this.files, trace := codec, files, [];
    }

    method Write(path: Path, bytes: Bytes)
      modifies this
      ensures files == old(files)[path := bytes]
      ensures trace == old(trace) + TornWrites(old(files), path, bytes)
    {
      trace := trace + TornWrites(files, path, bytes);
      files := files[path := bytes];
    }

    method Replace(from: Path, to: Path)
      requires from in files && from != to
      modifies this
      ensures files == (old(files) - {from})[to := old(files)[from]]
      ensures trace == old(trace) + [files]
    {
      files := (files - {from})[to := files[from]];
      trace := trace + [files];
    }

    /** Every state since the run began from `before` is safe. */
    ghost predicate Traced(before: Files, began: nat, job: Job)
      reads this
    {
      began <= |trace| && forall i | began <= i < |trace| :: Safe(codec, before, trace[i], job)
    }

    /** Stage the three outputs in a scratch directory of this run's own. */
    method Stage(output: Output, run: nat, ghost before: Files, ghost began: nat, job: Job)
      requires forall path: Path | !Scratch(path) :: Same(before, files, path)
      requires Traced(before, began, job)
      modifies this
      ensures forall path: Path | !Scratch(path) :: Same(before, files, path)
      ensures forall name: MemberName :: Work(run, name) in files && files[Work(run, name)] == output.Bytes(name)
      ensures Traced(before, began, job)
    {
      hide Safe;
      var names := [Chain, OpenInterest, Manifest];
      for i := 0 to 3
        invariant forall path: Path | !Scratch(path) :: Same(before, files, path)
        invariant forall k | 0 <= k < i ::
          Work(run, names[k]) in files && files[Work(run, names[k])] == output.Bytes(names[k])
        invariant Traced(before, began, job)
      {
        var name := names[i];
        ghost var start := files;
        ghost var so := trace;
        Write(WorkTemp(run, name), output.Bytes(name));
        forall k | |so| <= k < |trace| ensures Safe(codec, before, trace[k], job) {
          assert trace[k] == TornWrites(start, WorkTemp(run, name), output.Bytes(name))[k - |so|];
          UntouchedIsSafe(codec, before, trace[k], job);
        }
        Replace(WorkTemp(run, name), Work(run, name));
        UntouchedIsSafe(codec, before, files, job);
      }
      forall name: MemberName ensures Work(run, name) in files && files[Work(run, name)] == output.Bytes(name) {
        assert name == names[0] || name == names[1] || name == names[2];
      }
    }

    /** Move each staged output to its place, unless it is there already. */
    method Fill(output: Output, run: nat, ghost before: Files, ghost began: nat, job: Job)
      requires AllPresent(before, job.parts) && output == Built(codec, before, job)
      requires OutcomeOf(codec, before, job) in {NotComplete, PointerTempConflicts, NewlyPublished}
      requires MembersFit(before, output)
      requires forall path: Path | !Scratch(path) :: Same(before, files, path)
      requires forall name: MemberName :: Work(run, name) in files && files[Work(run, name)] == output.Bytes(name)
      requires Traced(before, began, job)
      modifies this
      ensures Filling(before, files, output) && HasMembers(files, output)
      ensures Traced(before, began, job)
    {
      hide Safe, OutcomeOf, Built;
      var names := [Chain, OpenInterest, Manifest];
      assert forall name: MemberName :: MemberFits(before, output, name);
      assert Filling(before, files, output) by {
        forall name: MemberName
          ensures Filled(before, files, output, name) { assert Same(before, files, Member(output.id, name)); }
      }
      for i := 0 to 3
        invariant Filling(before, files, output)
        invariant forall k | 0 <= k < i :: Member(output.id, names[k]) in files
        invariant forall k | i <= k < 3 ::
          Work(run, names[k]) in files && files[Work(run, names[k])] == output.Bytes(names[k])
        invariant Traced(before, began, job)
      {
        var name := names[i];
        assert Filled(before, files, output, name);
        if Member(output.id, name) !in files {
          ghost var start := files;
          Replace(Work(run, name), Member(output.id, name));
          forall other: MemberName ensures Filled(before, files, output, other) {
            assert Filled(before, start, output, other);
          }
          forall path: Path | !Scratch(path) && !(path.Member? && path.set_ == output.id)
            ensures Same(before, files, path) {
            assert Same(before, start, path);
          }
          FillingIsSafe(codec, before, files, job);
        }
      }
      forall name: MemberName
        ensures Member(output.id, name) in files && files[Member(output.id, name)] == output.Bytes(name) {
        assert name == names[0] || name == names[1] || name == names[2];
        assert Filled(before, files, output, name) && MemberFits(before, output, name);
      }
    }

    /** Point at the whole set: the pointer's text goes to a temporary file that then replaces it. */
    method Point(output: Output, ghost before: Files, ghost began: nat, job: Job)
      requires AllPresent(before, job.parts) && output == Built(codec, before, job)
      requires OutcomeOf(codec, before, job) == NewlyPublished
      requires Filling(before, files, output) && HasMembers(files, output)
      requires Traced(before, began, job)
      modifies this
      ensures NewPointer(files, output) && Safe(codec, before, files, job)
      ensures Traced(before, began, job)
    {
      hide Safe, OutcomeOf, Built;
      ghost var filled := files;
      ghost var so := trace;
      Write(PointerTemp, output.pointerBytes);
      forall k | |so| <= k < |trace| ensures Safe(codec, before, trace[k], job) {
        assert trace[k] == TornWrites(filled, PointerTemp, output.pointerBytes)[k - |so|];
        PointingIsSafe(codec, before, filled, trace[k], job);
      }
      Replace(PointerTemp, Pointer);
      assert NewPointer(files, output);
      PointingIsSafe(codec, before, filled, files, job);
    }

    /** Publish one job, staged in scratch directory `run`. Whatever the files were, `OutcomeOf`
        says, and every state a crash may leave meanwhile is safe. */
    method Publish(job: Job, run: nat) returns (outcome: Outcome)
      requires codec.Faithful()
      modifies this
      ensures outcome == OutcomeOf(codec, old(files), job)
      ensures Safe(codec, old(files), files, job)
      ensures |trace| >= |old(trace)| && forall i | |old(trace)| <= i < |trace| ::
        Safe(codec, old(files), trace[i], job)
      ensures outcome == NewlyPublished ==>
        Read(codec, files) == Some(Published(Built(codec, old(files), job).id, Built(codec, old(files), job).manifest))
    {
      hide Safe, Read, Built;
      ghost var before, began := files, |trace|;
      UntouchedIsSafe(codec, before, files, job);
      if !PartsFit(files, job) {
        return BadSources;
      }
      var output := Built(codec, files, job);
      var current := Read(codec, files);
      if current.Some? && current.value.id == output.id {
        return AlreadyPublished;
      }
      if !PointerFree(codec, files, output.id) {
        return PointerBlocks;
      }
      Stage(output, run, before, began, job);
      UntouchedIsSafe(codec, before, files, job);
      SameMembers(before, files, output);
      if !MembersFit(files, output) {
        return MemberConflicts;
      }
      Fill(output, run, before, began, job);
      FillingIsSafe(codec, before, files, job);
      if codec.rows(output.openInterest) == 0 {
        return NotComplete;
      }
      assert Same(before, files, PointerTemp);
      if PointerTemp in files && !(files[PointerTemp] <= output.pointerBytes) {
        return PointerTempConflicts;
      }
      Point(output, before, began, job);
      BuiltAfter(codec, before, files, job);
      NewPointerReads(codec, files, job);
      return NewlyPublished;
    }
  }

  lemma SameMembers(before: Files, after: Files, output: Output)
    requires forall path: Path | !Scratch(path) :: Same(before, after, path)
    ensures MembersFit(after, output) <==> MembersFit(before, output)
  {
    forall name: MemberName ensures MemberFits(after, output, name) <==> MemberFits(before, output, name) {
      assert Same(before, after, Member(output.id, name)) && Same(before, after, MemberTemp(output.id, name));
    }
    forall path: Path | path.Unknown? ensures path in before <==> path in after { assert Same(before, after, path); }
  }

  lemma BuiltAfter(codec: Codec, before: Files, after: Files, job: Job)
    requires PartsFit(before, job) && Safe(codec, before, after, job)
    ensures PartsFit(after, job) && Built(codec, after, job) == Built(codec, before, job)
  {
    hide OutcomeOf, Built;
    BuiltTheSame(codec, before, after, job);
  }
}
