/** Baking and pruning one day's archive, with a crash possible between any two file operations:
    `src/tape/bake/bake.py`, `src/tape/bake/prune.py` and `src/tape/bake/manifest.py`. */
module Archive {
  import opened Prelude

  /** A segment's name places it in an hour. */
  datatype SegPath = SegPath(hour: Key, name: Key)
  datatype PartPath = PartPath(table: Key, hour: Key, name: Key)

  /** Equal hashes stand for equal content. */
  datatype File = File(bytes: nat, hash: Key)

  datatype Bake = Bake(version: Key, failures: bool)

  datatype Manifest = Manifest(segments: map<SegPath, File>, parts: map<PartPath, Key>, bakes: map<Key, Bake>,
      pruned: map<SegPath, File>)

  /** What `Manifest` refuses to be built without. */
  ghost predicate ValidManifest(m: Manifest) {
    && (forall p :: p in m.segments ==> p.hour in m.bakes)
    && (forall p :: p in m.parts ==> p.hour in m.bakes)
    && (forall p :: p in m.pruned ==> p in m.segments && m.segments[p] == m.pruned[p])
  }

  predicate HasPruned(m: Manifest, hour: Key) {
    exists p :: p in m.pruned && p.hour == hour
  }

  const NEW_MANIFEST := Manifest(map[], map[], map[], map[])

  /** `with_hour`; `None` stands for its error. */
  function WithHour(
      m: Manifest, hour: Key, bake: Bake, segments: map<SegPath, File>, parts: map<PartPath, Key>): Option<Manifest>
  {
    if HasPruned(m, hour) then None
    else if exists p :: p in segments && p.hour != hour then None
    else if exists p :: p in parts && p.hour != hour then None
    else Some(Manifest((map p | p in m.segments && p.hour != hour :: m.segments[p]) + segments,
                       (map p | p in m.parts && p.hour != hour :: m.parts[p]) + parts,
                       m.bakes[hour := bake], m.pruned))
  }

  /** `with_pruned`: a segment recorded already keeps its first record. */
  function WithPruned(m: Manifest, records: map<SegPath, File>): Option<Manifest> {
    var all := records + m.pruned;
    if exists p :: p in all && (p !in m.segments || m.segments[p] != all[p]) then None
    else Some(m.(pruned := all))
  }

  // ------------------------------------------------------------------ deciding

  datatype SegmentOnDisk = SegmentOnDisk(bytes: nat, hash: Option<Key>)
  datatype PartOnDisk = PartOnDisk(present: bool, hash: Option<Key>)
  datatype Facts = Facts(hour: Key, segments: map<SegPath, SegmentOnDisk>, parts: map<PartPath, PartOnDisk>)

  datatype Reason =
    | InsideRetention | NotBaked | BakeVersionStale | SegmentAdded | SegmentChanged | SegmentMissing
    | DecodeFailures | BakedFileMissing | BakedFileChanged | Unverified

  /** The time now, how long after it ends an hour is kept, and the current bake version. */
  datatype Policy = Policy(now: int, retention: int, version: Key)

  const NS_PER_HOUR := 3_600_000_000_000

  function EndOf(hour: Key): int {
    (hour.rank + 1) * NS_PER_HOUR
  }

  datatype Decision = Decision(prunable: bool, reasons: set<Reason>, segments: map<SegPath, SegmentOnDisk>)

  function SegmentVerdict(s: SegmentOnDisk, baked: Option<File>): Option<Reason> {
    if baked.None? then Some(SegmentAdded)
    else if s.bytes != baked.value.bytes then Some(SegmentChanged)
    else if s.hash.None? then Some(Unverified)
    else if s.hash.value != baked.value.hash then Some(SegmentChanged)
    else None
  }

  function PartVerdict(found: Option<PartOnDisk>, baked: Key): Option<Reason> {
    if found.None? || !found.value.present then Some(BakedFileMissing)
    else if found.value.hash.None? then Some(Unverified)
    else if found.value.hash.value != baked then Some(BakedFileChanged)
    else None
  }

  function BakedSegment(m: Manifest, hour: Key, p: SegPath): Option<File> {
    if p in m.segments && p.hour == hour then Some(m.segments[p]) else None
  }

  function FoundPart(f: Facts, p: PartPath): Option<PartOnDisk> {
    if p in f.parts then Some(f.parts[p]) else None
  }

  predicate SegmentSays(f: Facts, m: Manifest, r: Reason) {
    exists p :: p in f.segments && SegmentVerdict(f.segments[p], BakedSegment(m, f.hour, p)) == Some(r)
  }

  predicate PartSays(f: Facts, m: Manifest, r: Reason) {
    exists p :: p in m.parts && p.hour == f.hour && PartVerdict(FoundPart(f, p), m.parts[p]) == Some(r)
  }

  predicate SegmentGone(f: Facts, m: Manifest) {
    exists p :: p in m.segments && p.hour == f.hour && p !in f.segments && p !in m.pruned
  }

  predicate Known(f: Facts, manifest: Option<Manifest>) {
    manifest.Some? && f.hour in manifest.value.bakes
  }

  /** Every reason but the last. */
  predicate Speaks(f: Facts, manifest: Option<Manifest>, policy: Policy, r: Reason) {
    match r
    case InsideRetention => EndOf(f.hour) + policy.retention >= policy.now
    case NotBaked => !Known(f, manifest)
    case BakeVersionStale => Known(f, manifest) && manifest.value.bakes[f.hour].version != policy.version
    case DecodeFailures => Known(f, manifest) && manifest.value.bakes[f.hour].failures
    case SegmentMissing => Known(f, manifest) && SegmentGone(f, manifest.value)
    case SegmentAdded => Known(f, manifest) && SegmentSays(f, manifest.value, r)
    case SegmentChanged => Known(f, manifest) && SegmentSays(f, manifest.value, r)
    case BakedFileMissing => Known(f, manifest) && PartSays(f, manifest.value, r)
    case BakedFileChanged => Known(f, manifest) && PartSays(f, manifest.value, r)
    case Unverified => false
  }

  const REASONS: set<Reason> :=
      {InsideRetention, NotBaked, BakeVersionStale, SegmentAdded, SegmentChanged, SegmentMissing,
                                 DecodeFailures, BakedFileMissing, BakedFileChanged}

  predicate HashMissing(f: Facts, manifest: Option<Manifest>) {
    Known(f, manifest) && (SegmentSays(f, manifest.value, Unverified) || PartSays(f, manifest.value, Unverified))
  }

  /** `decide`. */
  function Decide(f: Facts, manifest: Option<Manifest>, policy: Policy): Decision {
    var said := set r | r in REASONS && Speaks(f, manifest, policy, r);
    var reasons := if HashMissing(f, manifest) && said == {} then {Unverified} else said;
    Decision(reasons == {}, reasons, if reasons == {} then f.segments else map[])
  }

  // ------------------------------------------------------------------ what the decision means

  /** Wall-clock hours are counted from the epoch. */
  ghost predicate InHour(t: int, hour: Key) {
    t / 3_600_000_000_000 == hour.rank
  }

  /** All of the hour, to the end of its last nanosecond, is longer ago than it is kept. */
  ghost predicate LongOver(hour: Key, policy: Policy) {
    forall t :: InHour(t, hour) ==> policy.now - (t + 1) > policy.retention
  }

  lemma RetentionMeans(hour: Key, policy: Policy)
    ensures EndOf(hour) + policy.retention < policy.now <==> LongOver(hour, policy)
  {
    assert InHour(EndOf(hour) - 1, hour);
  }

  /** The size and hash on disk are those baked; a file that is not the hour's own was not baked from it. */
  ghost predicate SameAsBaked(f: Facts, m: Manifest, p: SegPath) {
    && p in f.segments && p in m.segments && p.hour == f.hour
    && f.segments[p] == SegmentOnDisk(m.segments[p].bytes, Some(m.segments[p].hash))
  }

  ghost predicate SameAsWritten(f: Facts, m: Manifest, p: PartPath) {
    p in f.parts && p in m.parts && f.parts[p] == PartOnDisk(true, Some(m.parts[p]))
  }

  /** What it takes for the raw segments of an hour to be of no more use. */
  ghost predicate MayGo(f: Facts, m: Manifest, policy: Policy) {
    && LongOver(f.hour, policy)
    && f.hour in m.bakes && m.bakes[f.hour].version == policy.version && !m.bakes[f.hour].failures
    && (forall p :: p in f.segments ==> SameAsBaked(f, m, p))
    && (forall p :: p in m.segments && p.hour == f.hour && p !in f.segments ==> p in m.pruned)
    && (forall p :: p in m.parts && p.hour == f.hour ==> SameAsWritten(f, m, p))
  }

  ghost predicate Added(f: Facts, m: Manifest) {
    exists p :: p in f.segments && !(p in m.segments && p.hour == f.hour)
  }

  /** Another size, or another hash as far as it is known. */
  ghost predicate Changed(f: Facts, m: Manifest) {
    exists p ::
      && p in f.segments && p in m.segments && p.hour == f.hour
      && (f.segments[p].bytes != m.segments[p].bytes
          || (f.segments[p].hash.Some? && f.segments[p].hash.value != m.segments[p].hash))
  }

  ghost predicate Missing(f: Facts, m: Manifest) {
    exists p :: p in m.segments && p.hour == f.hour && p !in f.segments && p !in m.pruned
  }

  ghost predicate PartMissing(f: Facts, m: Manifest) {
    exists p :: p in m.parts && p.hour == f.hour && !(p in f.parts && f.parts[p].present)
  }

  ghost predicate PartChanged(f: Facts, m: Manifest) {
    exists p ::
      && p in m.parts && p.hour == f.hour && p in f.parts
      && f.parts[p].present && f.parts[p].hash.Some? && f.parts[p].hash.value != m.parts[p]
  }

  /** The rest would be settled by a hash that was not made. */
  ghost predicate Open(f: Facts, m: Manifest) {
    || (exists p ::
        && p in f.segments && p in m.segments && p.hour == f.hour
        && f.segments[p].bytes == m.segments[p].bytes && f.segments[p].hash.None?)
    || (exists p ::
        p in m.parts && p.hour == f.hour && p in f.parts && f.parts[p].present && f.parts[p].hash.None?)
  }

  /** When each reason is given. */
  ghost predicate Applies(f: Facts, manifest: Option<Manifest>, policy: Policy, r: Reason) {
    var known := manifest.Some? && f.hour in manifest.value.bakes;
    match r
    case InsideRetention => !LongOver(f.hour, policy)
    case NotBaked => manifest.None? || f.hour !in manifest.value.bakes
    case BakeVersionStale => known && policy.version != manifest.value.bakes[f.hour].version
    case DecodeFailures => known && manifest.value.bakes[f.hour].failures
    case SegmentAdded => known && Added(f, manifest.value)
    case SegmentChanged => known && Changed(f, manifest.value)
    case SegmentMissing => known && Missing(f, manifest.value)
    case BakedFileMissing => known && PartMissing(f, manifest.value)
    case BakedFileChanged => known && PartChanged(f, manifest.value)
    case Unverified => known && Open(f, manifest.value)
  }

  lemma SegmentReasons(f: Facts, m: Manifest)
    ensures SegmentSays(f, m, SegmentAdded) <==> Added(f, m)
    ensures SegmentSays(f, m, SegmentChanged) <==> Changed(f, m)
    ensures SegmentGone(f, m) <==> Missing(f, m)
  {
    if Added(f, m) {
      var p :| p in f.segments && !(p in m.segments && p.hour == f.hour);
      assert SegmentVerdict(f.segments[p], BakedSegment(m, f.hour, p)) == Some(SegmentAdded);
    }
    if Changed(f, m) {
      var p :| p in f.segments && p in m.segments && p.hour == f.hour
               && (f.segments[p].bytes != m.segments[p].bytes
                   || (f.segments[p].hash.Some? && f.segments[p].hash.value != m.segments[p].hash));
      assert SegmentVerdict(f.segments[p], BakedSegment(m, f.hour, p)) == Some(SegmentChanged);
    }
  }

  lemma PartReasons(f: Facts, m: Manifest)
    ensures PartSays(f, m, BakedFileMissing) <==> PartMissing(f, m)
    ensures PartSays(f, m, BakedFileChanged) <==> PartChanged(f, m)
  {
    if PartMissing(f, m) {
      var p :| p in m.parts && p.hour == f.hour && !(p in f.parts && f.parts[p].present);
      assert PartVerdict(FoundPart(f, p), m.parts[p]) == Some(BakedFileMissing);
    }
    if PartChanged(f, m) {
      var p :| p in m.parts && p.hour == f.hour && p in f.parts && f.parts[p].present
               && f.parts[p].hash.Some? && f.parts[p].hash.value != m.parts[p];
      assert PartVerdict(FoundPart(f, p), m.parts[p]) == Some(BakedFileChanged);
    }
  }

  lemma OpenReasons(f: Facts, m: Manifest)
    ensures SegmentSays(f, m, Unverified) || PartSays(f, m, Unverified) <==> Open(f, m)
  {
    if p :| p in f.segments && p in m.segments && p.hour == f.hour
            && f.segments[p].bytes == m.segments[p].bytes && f.segments[p].hash.None? {
      assert SegmentVerdict(f.segments[p], BakedSegment(m, f.hour, p)) == Some(Unverified);
    }
    if p :| p in m.parts && p.hour == f.hour && p in f.parts && f.parts[p].present && f.parts[p].hash.None? {
      assert PartVerdict(FoundPart(f, p), m.parts[p]) == Some(Unverified);
    }
  }

  lemma SpeaksWhenApplies(f: Facts, manifest: Option<Manifest>, policy: Policy, r: Reason)
    ensures !r.Unverified? ==> (Speaks(f, manifest, policy, r) <==> Applies(f, manifest, policy, r))
    ensures r.Unverified? ==> (HashMissing(f, manifest) <==> Applies(f, manifest, policy, r))
  {
    match r
    case InsideRetention => RetentionMeans(f.hour, policy);
    case NotBaked =>
    case BakeVersionStale =>
    case DecodeFailures =>
    case SegmentAdded => if manifest.Some? { SegmentReasons(f, manifest.value); }
    case SegmentChanged => if manifest.Some? { SegmentReasons(f, manifest.value); }
    case SegmentMissing => if manifest.Some? { SegmentReasons(f, manifest.value); }
    case BakedFileMissing => if manifest.Some? { PartReasons(f, manifest.value); }
    case BakedFileChanged => if manifest.Some? { PartReasons(f, manifest.value); }
    case Unverified => if manifest.Some? { OpenReasons(f, manifest.value); }
  }

  /** No other reason applies. */
  ghost predicate Alone(f: Facts, manifest: Option<Manifest>, policy: Policy, r: Reason) {
    forall q: Reason :: q != r ==> !Applies(f, manifest, policy, q)
  }

  /** Every reason that applies is given and no other, but a hash not made is a reason only alone. */
  lemma ReasonsAre(f: Facts, manifest: Option<Manifest>, policy: Policy, r: Reason)
    ensures r in Decide(f, manifest, policy).reasons <==>
            Applies(f, manifest, policy, r) && (r.Unverified? ==> Alone(f, manifest, policy, r))
  {
    var said := set q | q in REASONS && Speaks(f, manifest, policy, q);
    forall q: Reason ensures q in said <==> !q.Unverified? && Applies(f, manifest, policy, q) {
      SpeaksWhenApplies(f, manifest, policy, q);
    }
    SpeaksWhenApplies(f, manifest, policy, Unverified);
    assert said == {} <==> Alone(f, manifest, policy, Unverified);
  }

  /** An hour is prunable exactly when nothing more is asked of it. */
  lemma PrunableIff(f: Facts, manifest: Option<Manifest>, policy: Policy)
    ensures Decide(f, manifest, policy).prunable <==> manifest.Some? && MayGo(f, manifest.value, policy)
    ensures Decide(f, manifest, policy).segments
            == if manifest.Some? && MayGo(f, manifest.value, policy) then f.segments else map[]
  {
    var reasons := Decide(f, manifest, policy).reasons;
    forall r ensures r in reasons ==> Applies(f, manifest, policy, r) {
      ReasonsAre(f, manifest, policy, r);
    }
    if manifest.Some? && MayGo(f, manifest.value, policy) {
      forall r ensures !Applies(f, manifest, policy, r) {
      }
      assert reasons == {};
    } else {
      SomeReasonApplies(f, manifest, policy);
      var r :| Applies(f, manifest, policy, r);
      if r.Unverified? && Alone(f, manifest, policy, r) {
        ReasonsAre(f, manifest, policy, r);
      } else {
        var q :| Applies(f, manifest, policy, q) && !q.Unverified?;
        ReasonsAre(f, manifest, policy, q);
      }
    }
  }

  lemma SomeReasonApplies(f: Facts, manifest: Option<Manifest>, policy: Policy)
    requires !(manifest.Some? && MayGo(f, manifest.value, policy))
    ensures exists r :: Applies(f, manifest, policy, r)
  {
    if forall r: Reason :: !r.Unverified? ==> !Applies(f, manifest, policy, r) {
      assert !Applies(f, manifest, policy, InsideRetention) && !Applies(f, manifest, policy, NotBaked);
      assert !Applies(f, manifest, policy, BakeVersionStale) && !Applies(f, manifest, policy, DecodeFailures);
      assert !Applies(f, manifest, policy, SegmentAdded) && !Applies(f, manifest, policy, SegmentChanged);
      assert !Applies(f, manifest, policy, SegmentMissing);
      assert !Applies(f, manifest, policy, BakedFileMissing) && !Applies(f, manifest, policy, BakedFileChanged);
      assert Applies(f, manifest, policy, Unverified);
    }
  }

  /** The same facts with every hash left out. */
  function Unhashed(f: Facts): Facts {
    Facts(f.hour, map p | p in f.segments :: f.segments[p].(hash := None), map p | p in f.parts ::
        f.parts[p].(hash := None))
  }

  /** What `survey` does with an hour: hash only when nothing else speaks against it. */
  function Surveyed1(f: Facts, manifest: Option<Manifest>, policy: Policy): Decision {
    var quick := Decide(Unhashed(f), manifest, policy);
    if quick.reasons == {Unverified} then Decide(f, manifest, policy) else quick
  }

  predicate Hashed(f: Facts) {
    (forall p :: p in f.segments ==> f.segments[p].hash.Some?)
    && (forall p :: p in f.parts && f.parts[p].present ==> f.parts[p].hash.Some?)
  }

  /** What leaves out hashes says of a file it says with them as well. */
  lemma QuickReasonsStand(f: Facts, m: Manifest, policy: Policy, r: Reason)
    requires r in REASONS && Speaks(Unhashed(f), Some(m), policy, r)
    ensures Speaks(f, Some(m), policy, r)
  {
    var u := Unhashed(f);
    if SegmentSays(u, m, r) && (r.SegmentAdded? || r.SegmentChanged?) {
      var p :| p in u.segments && SegmentVerdict(u.segments[p], BakedSegment(m, f.hour, p)) == Some(r);
      assert p in f.segments && SegmentVerdict(f.segments[p], BakedSegment(m, f.hour, p)) == Some(r);
    }
    if PartSays(u, m, r) && (r.BakedFileMissing? || r.BakedFileChanged?) {
      var p :| p in m.parts && p.hour == f.hour && PartVerdict(FoundPart(u, p), m.parts[p]) == Some(r);
      assert PartVerdict(FoundPart(f, p), m.parts[p]) == Some(r);
    }
  }

  /** An hour with segments is never prunable before they are hashed. */
  lemma QuickNeverPrunes(f: Facts, manifest: Option<Manifest>, policy: Policy)
    requires f.segments != map[]
    ensures !Decide(Unhashed(f), manifest, policy).prunable
  {
    var u := Unhashed(f);
    var said := set r | r in REASONS && Speaks(u, manifest, policy, r);
    if said == {} {
      assert NotBaked !in said && SegmentAdded !in said && SegmentChanged !in said;
      var p :| p in f.segments;
      var m := manifest.value;
      assert p in u.segments;
      assert !SegmentSays(u, m, SegmentAdded) && !SegmentSays(u, m, SegmentChanged);
      assert SegmentVerdict(u.segments[p], BakedSegment(m, f.hour, p)) == Some(Unverified);
    }
  }

  /** Hashing only on demand prunes exactly the hours that hashing everything would, and every segment of
      a prunable hour carries its hash. */
  lemma LazyHashingAgrees(f: Facts, manifest: Option<Manifest>, policy: Policy)
    requires f.segments != map[] && Hashed(f)
    ensures Surveyed1(f, manifest, policy).prunable <==> Decide(f, manifest, policy).prunable
    ensures Surveyed1(f, manifest, policy).prunable ==> Surveyed1(f, manifest, policy).segments == f.segments
    ensures Surveyed1(f, manifest, policy).reasons <= Decide(f, manifest, policy).reasons + {Unverified}
  {
    var quick := Decide(Unhashed(f), manifest, policy);
    QuickNeverPrunes(f, manifest, policy);
    if quick.reasons != {Unverified} {
      var said := set r | r in REASONS && Speaks(Unhashed(f), manifest, policy, r);
      assert quick.reasons == said;
      forall r | r in said ensures Speaks(f, manifest, policy, r) {
        if manifest.Some? { QuickReasonsStand(f, manifest.value, policy, r); }
      }
      var r :| r in said;
      assert r in Decide(f, manifest, policy).reasons;
    }
  }

  /** The same files with not one hash made. */
  ghost predicate HashFree(g: Facts, f: Facts) {
    && g.hour == f.hour && g.segments.Keys == f.segments.Keys && g.parts.Keys == f.parts.Keys
    && (forall p :: p in g.segments ==> g.segments[p] == SegmentOnDisk(f.segments[p].bytes, None))
    && (forall p :: p in g.parts ==> g.parts[p] == PartOnDisk(f.parts[p].present, None))
  }

  /** Files are hashed only for an hour against which nothing else speaks: if a reason applies that no hash is needed
      for, the reasons given are those that apply without any; if none does, those that apply with all. */
  lemma SurveyHashesLast(f: Facts, g: Facts, manifest: Option<Manifest>, policy: Policy, r: Reason)
    requires HashFree(g, f) && f.segments != map[]
    ensures r in Surveyed1(f, manifest, policy).reasons <==>
            if exists q: Reason :: !q.Unverified? && Applies(g, manifest, policy, q)
            then !r.Unverified? && Applies(g, manifest, policy, r)
            else r in Decide(f, manifest, policy).reasons
  {
    var u := Unhashed(f);
    assert u.segments == g.segments && u.parts == g.parts;
    assert u == g;
    QuickNeverPrunes(f, manifest, policy);
    var quick := Decide(g, manifest, policy);
    forall q: Reason ensures q in quick.reasons ==> Applies(g, manifest, policy, q)
      ensures q in quick.reasons && q.Unverified? ==> Alone(g, manifest, policy, q)
      ensures !q.Unverified? && Applies(g, manifest, policy, q) ==> q in quick.reasons
    {
      ReasonsAre(g, manifest, policy, q);
    }
    if exists q: Reason :: !q.Unverified? && Applies(g, manifest, policy, q) {
      var q: Reason :| !q.Unverified? && Applies(g, manifest, policy, q);
      assert q in quick.reasons;
      assert !Alone(g, manifest, policy, Unverified);
    } else {
      OnlyUnverified(quick.reasons);
    }
  }

  lemma OnlyUnverified(reasons: set<Reason>)
    requires reasons != {} && forall r :: r in reasons ==> r.Unverified?
    ensures reasons == {Unverified}
  {
    var r :| r in reasons;
  }

  // ------------------------------------------------------------------ the archive on disk

  datatype Disk = Disk(raw: map<SegPath, File>, baked: map<PartPath, File>, manifest: Option<Manifest>)

  /** What one process holding the archive's lock is in the middle of. */
  datatype Process =
    | Idle
    | Swapping(hour: Key, bake: Bake, segments: map<SegPath, File>, parts: map<PartPath, File>, tables: set<Key>)
    | Deciding(records: map<SegPath, File>)
    | Unlinking(left: set<SegPath>)

  const TABLES: set<Key> := {Key(0), Key(1), Key(2), Key(3), Key(4), Key(5)}

  /** `gone` remembers every segment that was ever unlinked, as it was. */
  datatype World = World(disk: Disk, process: Process, gone: map<SegPath, File>)

  datatype Step =
    // the recorder finishes a segment
    | Tape(path: SegPath, file: File)
    | StartBake(hour: Key, bake: Bake, parts: map<PartPath, File>)
    // `replace_dir` renames the old directory away, and then the new one in
    | MoveAside(table: Key)
    | SwapTable(table: Key)
    | RecordBake
    | StartSurvey
    | SurveyHour(hour: Key, policy: Policy)
    | RecordPruned
    | Unlink(path: SegPath)
    | Done
    // or restart: the lock is free again
    | Crash

  ghost function FactsOf(disk: Disk, hour: Key): Facts {
    Facts(hour, map p | p in disk.raw && p.hour == hour :: SegmentOnDisk(disk.raw[p].bytes, Some(disk.raw[p].hash)),
          if disk.manifest.None? then map[] else
            map p | p in disk.manifest.value.parts && p.hour == hour ::
              if p in disk.baked then PartOnDisk(true, Some(disk.baked[p].hash)) else PartOnDisk(false, None))
  }

  /** One turn of `survey`'s loop: the hour's segments, if it is prunable as the disk is then. */
  ghost function Chosen(disk: Disk, hour: Key, policy: Policy): map<SegPath, File> {
    map p | p in disk.raw && p.hour == hour && Surveyed1(FactsOf(disk, hour), disk.manifest, policy).prunable ::
        disk.raw[p]
  }

  ghost predicate Possible(w: World, s: Step) {
    match s
    case Tape(path, _) => path !in w.disk.raw
        && !(w.disk.manifest.Some? && path in w.disk.manifest.value.segments)   // a name of its own
    case StartBake(hour, _, parts) => w.process.Idle? && forall p :: p in parts ==> p.hour == hour && p.table in TABLES
    case MoveAside(table) => w.process.Swapping? && table in w.process.tables
    case SwapTable(table) => w.process.Swapping? && table in w.process.tables
    case RecordBake => w.process.Swapping? && w.process.tables == {}
    case StartSurvey => w.process.Idle?
    case SurveyHour(_, _) => w.process.Deciding?
    case RecordPruned => w.process.Deciding?
    case Unlink(path) => w.process.Unlinking? && path in w.process.left
    case Done => w.process.Unlinking? && w.process.left == {}
    case Crash => true
  }

  ghost function Hashes(parts: map<PartPath, File>): map<PartPath, Key> {
    map p | p in parts :: parts[p].hash
  }

  /** `replace_dir`: one table's part files of the hour give way to the new ones. */
  ghost function Swapped(
      baked: map<PartPath, File>, hour: Key, table: Key, parts: map<PartPath, File>): map<PartPath, File>
  {
    (map p | p in baked && !(p.hour == hour && p.table == table) :: baked[p])
        + (map p | p in parts && p.table == table :: parts[p])
  }

  ghost function Next(w: World, s: Step): World
    requires Possible(w, s)
  {
    match s
    case Tape(path, file) => w.(disk := w.disk.(raw := w.disk.raw[path := file]))
    case StartBake(hour, bake, parts) =>
      if w.disk.manifest.Some? && HasPruned(w.disk.manifest.value, hour) then w
      else w.(process :=
          Swapping(hour, bake, map p | p in w.disk.raw && p.hour == hour :: w.disk.raw[p], parts, TABLES))
    case MoveAside(table) => w.(disk := w.disk.(baked := Swapped(w.disk.baked, w.process.hour, table, map[])))
    case SwapTable(table) =>
      w.(disk := w.disk.(baked := Swapped(w.disk.baked, w.process.hour, table, w.process.parts)),
         process := w.process.(tables := w.process.tables - {table}))
    case RecordBake =>
      var was := if w.disk.manifest.Some? then w.disk.manifest.value else NEW_MANIFEST;
      var made := WithHour(was, w.process.hour, w.process.bake, w.process.segments, Hashes(w.process.parts));
      World(if made.Some? then w.disk.(manifest := made) else w.disk, Idle, w.gone)
    case StartSurvey => w.(process := Deciding(map[]))
    case SurveyHour(hour, policy) => w.(process := Deciding(w.process.records + Chosen(w.disk, hour, policy)))
    case RecordPruned =>
      var made := if w.disk.manifest.None? then None else WithPruned(w.disk.manifest.value, w.process.records);
      if w.process.records == map[] || made.None? then w.(process := Idle)
      else w.(disk := w.disk.(manifest := made), process := Unlinking(w.process.records.Keys))
    case Unlink(path) =>
      World(w.disk.(raw := w.disk.raw - {path}), w.process.(left := w.process.left - {path}),
            if path in w.disk.raw then w.gone[path := w.disk.raw[path]] else w.gone)
    case Done => w.(process := Idle)
    case Crash => w.(process := Idle)
  }

  const EMPTY := World(Disk(map[], map[], None), Idle, map[])

  /** The archive after any run of steps; one that is not possible does nothing. */
  ghost function Ran(steps: seq<Step>): World {
    if steps == [] then EMPTY else
      var w := Ran(steps[..|steps| - 1]);
      if Possible(w, steps[|steps| - 1]) then Next(w, steps[|steps| - 1]) else w
  }

  // ------------------------------------------------------------------ what every run keeps

  /** Every part the manifest lists for the hour is on disk with its content, from a bake without failures. */
  ghost predicate Intact(baked: map<PartPath, File>, m: Manifest, hour: Key) {
    && hour in m.bakes && !m.bakes[hour].failures
    && forall p :: p in m.parts && p.hour == hour ==> p in baked && baked[p].hash == m.parts[p]
  }

  ghost predicate IsBaked(m: Manifest, p: SegPath, file: File) {
    p in m.segments && m.segments[p] == file
  }

  ghost predicate Recorded(m: Manifest, p: SegPath, file: File) {
    p in m.pruned && m.pruned[p] == file
  }

  ghost predicate DiskSafe(disk: Disk, gone: map<SegPath, File>) {
    match disk.manifest
    case None => gone == map[]
    case Some(m) =>
      && ValidManifest(m)
      && (forall p :: p in gone ==> Recorded(m, p, gone[p]))
      && (forall p :: p in m.pruned ==> Intact(disk.baked, m, p.hour))
  }

  ghost predicate ProcessSafe(disk: Disk, process: Process) {
    match process
    case Idle => true
    case Swapping(hour, _, segments, parts, _) =>
      && (disk.manifest.Some? ==> !HasPruned(disk.manifest.value, hour))
      && (forall p :: p in segments ==> p.hour == hour) && (forall p :: p in parts ==> p.hour == hour)
    case Deciding(records) =>
      forall p :: p in records ==>
        && p in disk.raw && disk.raw[p] == records[p] && disk.manifest.Some?
        && IsBaked(disk.manifest.value, p, records[p]) && Intact(disk.baked, disk.manifest.value, p.hour)
    case Unlinking(left) =>
      && disk.manifest.Some?
      && forall p ::
           p in left ==>
           p in disk.manifest.value.pruned && (p in disk.raw ==> Recorded(disk.manifest.value, p, disk.raw[p]))
  }

  ghost predicate Safe(w: World) {
    DiskSafe(w.disk, w.gone) && ProcessSafe(w.disk, w.process)
  }

  lemma TapeIsSafe(w: World, path: SegPath, file: File)
    requires Safe(w) && Possible(w, Tape(path, file))
    ensures Safe(Next(w, Tape(path, file)))
  {
  }

  lemma StartBakeIsSafe(w: World, s: Step)
    requires Safe(w) && s.StartBake? && Possible(w, s)
    ensures Safe(Next(w, s))
  {
  }

  lemma MoveAsideIsSafe(w: World, table: Key)
    requires Safe(w) && Possible(w, MoveAside(table))
    ensures Safe(Next(w, MoveAside(table)))
  {
    if w.disk.manifest.Some? {
      var m, baked := w.disk.manifest.value, Next(w, MoveAside(table)).disk.baked;
      forall p | p in m.pruned
        ensures Intact(baked, m, p.hour)
      {
        OtherHourIntact(w.disk.baked, m, p.hour, w.process.hour, table, map[]);
      }
    }
  }

  lemma SwapIsSafe(w: World, table: Key)
    requires Safe(w) && Possible(w, SwapTable(table))
    ensures Safe(Next(w, SwapTable(table)))
  {
    if w.disk.manifest.Some? {
      var m, baked := w.disk.manifest.value, Next(w, SwapTable(table)).disk.baked;
      forall p | p in m.pruned
        ensures Intact(baked, m, p.hour)
      {
        OtherHourIntact(w.disk.baked, m, p.hour, w.process.hour, table, w.process.parts);
      }
    }
  }

  lemma OtherHourIntact(
      baked: map<PartPath, File>, m: Manifest, hour: Key, other: Key, table: Key, parts: map<PartPath, File>)
    requires Intact(baked, m, hour) && hour != other && forall p :: p in parts ==> p.hour == other
    ensures Intact(Swapped(baked, other, table, parts), m, hour)
  {
  }

  lemma WithHourKeeps(m: Manifest, hour: Key, bake: Bake, segments: map<SegPath, File>, parts: map<PartPath, Key>)
    requires ValidManifest(m) && WithHour(m, hour, bake, segments, parts).Some?
    ensures var n := WithHour(m, hour, bake, segments, parts).value;
            && ValidManifest(n) && n.pruned == m.pruned
            && (forall p :: p in m.pruned ==> p.hour != hour)
            && (forall h ::
                h != hour ==> (h in n.bakes <==> h in m.bakes) && (h in m.bakes ==> n.bakes[h] == m.bakes[h]))
            && (forall p: PartPath ::
                p.hour != hour ==> (p in n.parts <==> p in m.parts) && (p in m.parts ==> n.parts[p] == m.parts[p]))
            && (forall p: SegPath ::
                p.hour != hour ==>
                (p in n.segments <==> p in m.segments) && (p in m.segments ==> n.segments[p] == m.segments[p]))
  {
  }

  lemma RecordBakeIsSafe(w: World)
    requires Safe(w) && Possible(w, RecordBake)
    ensures Safe(Next(w, RecordBake))
  {
    var was := if w.disk.manifest.Some? then w.disk.manifest.value else NEW_MANIFEST;
    var made := WithHour(was, w.process.hour, w.process.bake, w.process.segments, Hashes(w.process.parts));
    if made.Some? {
      WithHourKeeps(was, w.process.hour, w.process.bake, w.process.segments, Hashes(w.process.parts));
      forall p | p in made.value.pruned ensures Intact(w.disk.baked, made.value, p.hour) {
        assert Intact(w.disk.baked, was, p.hour);
      }
    }
  }

  /** What a prunable verdict on true facts says of the archive. */
  lemma PrunableMeansBaked(disk: Disk, p: SegPath, policy: Policy)
    requires p in disk.raw && Surveyed1(FactsOf(disk, p.hour), disk.manifest, policy).prunable
    ensures disk.manifest.Some? && IsBaked(disk.manifest.value, p, disk.raw[p])
            && Intact(disk.baked, disk.manifest.value, p.hour)
  {
    var f := FactsOf(disk, p.hour);
    assert p in f.segments;
    LazyHashingAgrees(f, disk.manifest, policy);
    PrunableMeansNothingSpeaks(f, disk.manifest, policy);
    var m := disk.manifest.value;
    assert SegmentVerdict(f.segments[p], BakedSegment(m, f.hour, p)) == None;
    forall q | q in m.parts && q.hour == p.hour ensures q in disk.baked && disk.baked[q].hash == m.parts[q] {
      assert PartVerdict(FoundPart(f, q), m.parts[q]) == None;
    }
  }

  /** The decision unfolded: a prunable hour was baked without failures by the current version, every file
      on disk matches what was baked, and no part is missing or changed. */
  lemma PrunableMeansNothingSpeaks(f: Facts, manifest: Option<Manifest>, policy: Policy)
    requires Decide(f, manifest, policy).prunable
    ensures LongOver(f.hour, policy)
    ensures manifest.Some? && f.hour in manifest.value.bakes
    ensures manifest.value.bakes[f.hour] == Bake(policy.version, false)
    ensures forall p ::
            p in f.segments ==> SegmentVerdict(f.segments[p], BakedSegment(manifest.value, f.hour, p)) == None
    ensures forall p ::
            p in manifest.value.parts && p.hour == f.hour ==>
            PartVerdict(FoundPart(f, p), manifest.value.parts[p]) == None
    ensures !SegmentGone(f, manifest.value)
  {
    var said := set r | r in REASONS && Speaks(f, manifest, policy, r);
    assert said == {};
    RetentionMeans(f.hour, policy);
    assert InsideRetention !in said && NotBaked !in said;
    assert BakeVersionStale !in said && DecodeFailures !in said && SegmentMissing !in said;
    assert SegmentAdded !in said && SegmentChanged !in said && BakedFileMissing !in said && BakedFileChanged !in said;
    var m := manifest.value;
    assert !SegmentSays(f, m, SegmentAdded) && !SegmentSays(f, m, SegmentChanged) && !SegmentSays(f, m, Unverified);
    assert !PartSays(f, m, BakedFileMissing) && !PartSays(f, m, BakedFileChanged) && !PartSays(f, m, Unverified);
  }

  /** When the raw segments of an hour may be unlinked, in terms of the files themselves. */
  ghost predicate Due(disk: Disk, m: Manifest, hour: Key, policy: Policy) {
    && LongOver(hour, policy)
    && hour in m.bakes && m.bakes[hour].version == policy.version
    && (forall p :: p in disk.raw && p.hour == hour ==> IsBaked(m, p, disk.raw[p]))
    && (forall p :: p in m.segments && p.hour == hour && p !in disk.raw ==> p in m.pruned)
    && Intact(disk.baked, m, hour)
  }

  lemma FactsAreTrue(disk: Disk, m: Manifest, hour: Key, policy: Policy)
    requires disk.manifest == Some(m)
    ensures MayGo(FactsOf(disk, hour), m, policy) <==> Due(disk, m, hour, policy)
  {
    var f := FactsOf(disk, hour);
    assert forall p :: p in f.segments <==> p in disk.raw && p.hour == hour;
    forall p | p in f.segments ensures SameAsBaked(f, m, p) <==> IsBaked(m, p, disk.raw[p]) {
    }
    forall p | p in m.parts && p.hour == hour
      ensures SameAsWritten(f, m, p) <==> p in disk.baked && disk.baked[p].hash == m.parts[p]
    {
    }
  }

  /** A turn of the survey takes every segment of an hour that is due, and none of any other hour. */
  lemma SurveyTakesWhatIsDue(disk: Disk, hour: Key, policy: Policy, p: SegPath)
    ensures p in Chosen(disk, hour, policy) <==>
            && p in disk.raw && p.hour == hour
            && disk.manifest.Some? && Due(disk, disk.manifest.value, hour, policy)
    ensures p in Chosen(disk, hour, policy) ==> Chosen(disk, hour, policy)[p] == disk.raw[p]
  {
    if p in disk.raw && p.hour == hour {
      var f := FactsOf(disk, hour);
      assert p in f.segments;
      LazyHashingAgrees(f, disk.manifest, policy);
      PrunableIff(f, disk.manifest, policy);
      if disk.manifest.Some? { FactsAreTrue(disk, disk.manifest.value, hour, policy); }
    }
  }

  lemma SurveyIsSafe(w: World, hour: Key, policy: Policy)
    requires Safe(w) && Possible(w, SurveyHour(hour, policy))
    ensures Safe(Next(w, SurveyHour(hour, policy)))
  {
    var records := Chosen(w.disk, hour, policy);
    forall p | p in records
      ensures p in w.disk.raw && w.disk.raw[p] == records[p] && w.disk.manifest.Some?
      ensures IsBaked(w.disk.manifest.value, p, records[p]) && Intact(w.disk.baked, w.disk.manifest.value, p.hour)
    {
      PrunableMeansBaked(w.disk, p, policy);
    }
  }

  lemma WithPrunedKeeps(m: Manifest, records: map<SegPath, File>)
    requires ValidManifest(m) && WithPruned(m, records).Some?
    ensures var n := WithPruned(m, records).value;
            && ValidManifest(n) && n.segments == m.segments && n.parts == m.parts && n.bakes == m.bakes
            && (forall p :: p in n.pruned <==> p in m.pruned || p in records)
            && (forall p :: p in m.pruned ==> n.pruned[p] == m.pruned[p])
  {
  }

  lemma RecordPrunedIsSafe(w: World)
    requires Safe(w) && Possible(w, RecordPruned)
    ensures Safe(Next(w, RecordPruned))
  {
    if w.disk.manifest.Some? && WithPruned(w.disk.manifest.value, w.process.records).Some?
        && w.process.records != map[] {
      WithPrunedKeeps(w.disk.manifest.value, w.process.records);
      var n := WithPruned(w.disk.manifest.value, w.process.records).value;
      forall p | p in n.pruned ensures Intact(w.disk.baked, n, p.hour) {
        assert Intact(w.disk.baked, w.disk.manifest.value, p.hour);
      }
    }
  }

  lemma UnlinkIsSafe(w: World, path: SegPath)
    requires Safe(w) && Possible(w, Unlink(path))
    ensures Safe(Next(w, Unlink(path)))
  {
  }

  lemma StepIsSafe(w: World, s: Step)
    requires Safe(w) && Possible(w, s)
    ensures Safe(Next(w, s))
  {
    match s
    case Tape(path, file) => TapeIsSafe(w, path, file);
    case StartBake(_, _, _) => StartBakeIsSafe(w, s);
    case MoveAside(table) => MoveAsideIsSafe(w, table);
    case SwapTable(table) => SwapIsSafe(w, table);
    case RecordBake => RecordBakeIsSafe(w);
    case StartSurvey =>
    case SurveyHour(hour, policy) => SurveyIsSafe(w, hour, policy);
    case RecordPruned => RecordPrunedIsSafe(w);
    case Unlink(path) => UnlinkIsSafe(w, path);
    case Done =>
    case Crash =>
  }

  lemma {:induction false} RunIsSafe(steps: seq<Step>)
    ensures Safe(Ran(steps))
  {
    if steps != [] {
      var w, s := Ran(steps[..|steps| - 1]), steps[|steps| - 1];
      RunIsSafe(steps[..|steps| - 1]);
      if Possible(w, s) { StepIsSafe(w, s); }
    }
  }

  /** No run, however it crashes, unlinks a raw segment unless the manifest on disk already records it as
      pruned with its size and hash, and every part baked from its hour is on disk with its content. */
  lemma UnlinkIsRecorded(steps: seq<Step>, path: SegPath)
    requires var w := Ran(steps); Possible(w, Unlink(path)) && path in w.disk.raw
    ensures var disk := Ran(steps).disk;
            disk.manifest.Some? && Recorded(disk.manifest.value, path, disk.raw[path])
            && Intact(disk.baked, disk.manifest.value, path.hour)
  {
    RunIsSafe(steps);
  }

  /** Whatever was unlinked stays on record, and its hour's baked parts stay complete. */
  lemma NothingIsLost(steps: seq<Step>, path: SegPath)
    requires path in Ran(steps).gone
    ensures var w := Ran(steps);
            && w.disk.manifest.Some? && Recorded(w.disk.manifest.value, path, w.gone[path])
            && IsBaked(w.disk.manifest.value, path, w.gone[path])
            && Intact(w.disk.baked, w.disk.manifest.value, path.hour)
  {
    RunIsSafe(steps);
  }

  /** Some turn of a survey, earlier in the run, came to the hour when it was due. */
  ghost predicate WasDue(steps: seq<Step>, hour: Key) {
    exists k :: 0 <= k < |steps| && DueAt(steps, k, hour)
  }

  ghost predicate DueAt(steps: seq<Step>, k: nat, hour: Key)
    requires k < |steps|
  {
    && steps[k].SurveyHour? && steps[k].hour == hour
    && var disk := Ran(steps[..k]).disk;
       disk.manifest.Some? && Due(disk, disk.manifest.value, hour, steps[k].policy)
  }

  ghost predicate AllWereDue(steps: seq<Step>, w: World) {
    && (forall p :: w.disk.manifest.Some? && p in w.disk.manifest.value.pruned ==> WasDue(steps, p.hour))
    && (forall p :: w.process.Deciding? && p in w.process.records ==> WasDue(steps, p.hour))
  }

  lemma WasDueGoesOn(init: seq<Step>, s: Step, hour: Key)
    requires WasDue(init, hour)
    ensures WasDue(init + [s], hour)
  {
    var k :| 0 <= k < |init| && DueAt(init, k, hour);
    assert (init + [s])[..k] == init[..k];
    assert DueAt(init + [s], k, hour);
  }

  lemma SurveyedWasDue(init: seq<Step>, s: Step, p: SegPath)
    requires s.SurveyHour? && p in Chosen(Ran(init).disk, s.hour, s.policy)
    ensures WasDue(init + [s], p.hour)
  {
    SurveyTakesWhatIsDue(Ran(init).disk, s.hour, s.policy, p);
    assert (init + [s])[..|init|] == init;
    assert DueAt(init + [s], |init|, p.hour);
  }

  lemma PrunedWasDecided(w: World, s: Step, p: SegPath)
    requires Possible(w, s) && Safe(w)
    requires Next(w, s).disk.manifest.Some? && p in Next(w, s).disk.manifest.value.pruned
    ensures (w.disk.manifest.Some? && p in w.disk.manifest.value.pruned)
            || (w.process.Deciding? && p in w.process.records)
  {
  }

  lemma DecidedWasChosen(w: World, s: Step, p: SegPath)
    requires Possible(w, s) && Next(w, s).process.Deciding? && p in Next(w, s).process.records
    ensures (w.process.Deciding? && p in w.process.records)
            || (s.SurveyHour? && p in Chosen(w.disk, s.hour, s.policy))
  {
  }

  lemma StepKeepsDue(init: seq<Step>, s: Step, w: World, n: World)
    requires w == Ran(init) && Possible(w, s) && n == Next(w, s) && Safe(w) && AllWereDue(init, w)
    ensures AllWereDue(init + [s], n)
  {
    forall p | n.disk.manifest.Some? && p in n.disk.manifest.value.pruned ensures WasDue(init + [s], p.hour) {
      PrunedWasDecided(w, s, p);
      WasDueGoesOn(init, s, p.hour);
    }
    forall p | n.process.Deciding? && p in n.process.records ensures WasDue(init + [s], p.hour) {
      DecidedWasChosen(w, s, p);
      if w.process.Deciding? && p in w.process.records {
        WasDueGoesOn(init, s, p.hour);
      } else {
        SurveyedWasDue(init, s, p);
      }
    }
  }

  lemma {:induction false} EveryRecordWasDue(steps: seq<Step>)
    ensures AllWereDue(steps, Ran(steps))
  {
    if steps != [] {
      var init, s := steps[..|steps| - 1], steps[|steps| - 1];
      assert steps == init + [s];
      EveryRecordWasDue(init);
      RunIsSafe(init);
      if Possible(Ran(init), s) {
        StepKeepsDue(init, s, Ran(init), Next(Ran(init), s));
      } else {
        forall p | Ran(init).disk.manifest.Some? && p in Ran(init).disk.manifest.value.pruned
          ensures WasDue(steps, p.hour)
        {
          WasDueGoesOn(init, s, p.hour);
        }
        forall p | Ran(init).process.Deciding? && p in Ran(init).process.records ensures WasDue(steps, p.hour) {
          WasDueGoesOn(init, s, p.hour);
        }
      }
    }
  }

  /** Nothing is ever unlinked of an hour that was not due: at some survey before, all of it was out of
      retention, and on disk were its segments as baked and all its parts. */
  lemma UnlinkedWasDue(steps: seq<Step>, path: SegPath)
    requires path in Ran(steps).gone
    ensures WasDue(steps, path.hour)
  {
    EveryRecordWasDue(steps);
    RunIsSafe(steps);
  }

  /** The hour's part files and everything the manifest says of the hour. */
  ghost predicate SameHour(v: Disk, w: Disk, hour: Key) {
    && (forall p: PartPath ::
        p.hour == hour ==> (p in v.baked <==> p in w.baked) && (p in v.baked ==> v.baked[p] == w.baked[p]))
    && v.manifest.Some? && w.manifest.Some?
    && var m, n := v.manifest.value, w.manifest.value;
       && (hour in m.bakes <==> hour in n.bakes) && (hour in m.bakes ==> m.bakes[hour] == n.bakes[hour])
       && (forall p: PartPath ::
           p.hour == hour ==> (p in m.parts <==> p in n.parts) && (p in m.parts ==> m.parts[p] == n.parts[p]))
       && (forall p: SegPath ::
           p.hour == hour ==>
           (p in m.segments <==> p in n.segments) && (p in m.segments ==> m.segments[p] == n.segments[p]))
  }

  lemma SwapKeepsPrunedHour(w: World, s: Step, hour: Key)
    requires Safe(w) && Possible(w, s) && w.disk.manifest.Some? && HasPruned(w.disk.manifest.value, hour)
    requires s.MoveAside? || s.SwapTable?
    ensures SameHour(w.disk, Next(w, s).disk, hour) && Next(w, s).disk.manifest == w.disk.manifest
  {
    assert w.process.hour != hour;
  }

  lemma RecordingKeepsPrunedHour(w: World, s: Step, hour: Key)
    requires Safe(w) && Possible(w, s) && w.disk.manifest.Some? && HasPruned(w.disk.manifest.value, hour)
    requires s.RecordBake? || s.RecordPruned?
    ensures SameHour(w.disk, Next(w, s).disk, hour) && HasPruned(Next(w, s).disk.manifest.value, hour)
  {
    var m := w.disk.manifest.value;
    var p :| p in m.pruned && p.hour == hour;
    if s.RecordBake? {
      var made := WithHour(m, w.process.hour, w.process.bake, w.process.segments, Hashes(w.process.parts));
      if made.Some? {
        WithHourKeeps(m, w.process.hour, w.process.bake, w.process.segments, Hashes(w.process.parts));
        assert p in made.value.pruned;
      }
    } else if w.process.records != map[] && WithPruned(m, w.process.records).Some? {
      WithPrunedKeeps(m, w.process.records);
      assert p in WithPruned(m, w.process.records).value.pruned;
    }
  }

  lemma StepKeepsPrunedHour(w: World, s: Step, hour: Key)
    requires Safe(w) && Possible(w, s) && w.disk.manifest.Some? && HasPruned(w.disk.manifest.value, hour)
    ensures SameHour(w.disk, Next(w, s).disk, hour) && HasPruned(Next(w, s).disk.manifest.value, hour)
  {
    if s.MoveAside? || s.SwapTable? {
      SwapKeepsPrunedHour(w, s, hour);
    } else if s.RecordBake? || s.RecordPruned? {
      RecordingKeepsPrunedHour(w, s, hour);
    }
  }

  /** Once an hour has a pruned segment, no later step of any run rewrites its parts or what the manifest
      says of it. */
  lemma {:induction false} PrunedHourIsFrozen(steps: seq<Step>, n: nat, hour: Key)
    requires n <= |steps|
    requires var disk := Ran(steps[..n]).disk; disk.manifest.Some? && HasPruned(disk.manifest.value, hour)
    ensures SameHour(Ran(steps[..n]).disk, Ran(steps).disk, hour) && HasPruned(Ran(steps).disk.manifest.value, hour)
    decreases |steps|
  {
    if n == |steps| {
      assert steps[..n] == steps;
    } else {
      var init, s := steps[..|steps| - 1], steps[|steps| - 1];
      assert init[..n] == steps[..n];
      PrunedHourIsFrozen(init, n, hour);
      RunIsSafe(init);
      if Possible(Ran(init), s) { StepKeepsPrunedHour(Ran(init), s, hour); }
    }
  }

  // ------------------------------------------------------------------ what is begun can be finished

  /** The parts of the hour that are in place already are exactly those of the bake; none of a table the bake does
      not have is left. */
  ghost predicate InPlace(baked: map<PartPath, File>, hour: Key, parts: map<PartPath, File>, tables: set<Key>) {
    forall p: PartPath :: p.hour == hour && p.table !in tables ==>
      (p in baked <==> p in parts) && (p in baked ==> baked[p] == parts[p])
  }

  ghost predicate HalfSwapped(w: World) {
    && (forall p :: p in w.disk.baked ==> p.table in TABLES)
    && (w.process.Swapping? ==>
          && InPlace(w.disk.baked, w.process.hour, w.process.parts, w.process.tables)
          && forall p :: p in w.process.parts ==> p.table in TABLES && p.hour == w.process.hour)
  }

  lemma StepKeepsHalfSwapped(w: World, s: Step)
    requires HalfSwapped(w) && Possible(w, s)
    ensures HalfSwapped(Next(w, s))
  {
  }

  lemma {:induction false} RunIsHalfSwapped(steps: seq<Step>)
    ensures HalfSwapped(Ran(steps))
  {
    if steps != [] {
      var w, s := Ran(steps[..|steps| - 1]), steps[|steps| - 1];
      RunIsHalfSwapped(steps[..|steps| - 1]);
      if Possible(w, s) { StepKeepsHalfSwapped(w, s); }
    }
  }

  /** Whatever went before, when a bake is recorded the manifest says of the hour exactly what is on disk: each part
      file with its hash and no other, the segments that were there when the bake began, and the bake. */
  lemma RecordedBakeIsOnDisk(steps: seq<Step>, p: PartPath, r: SegPath)
    requires Possible(Ran(steps), RecordBake) && p.hour == r.hour == Ran(steps).process.hour
    ensures var w := Ran(steps); var disk := Next(w, RecordBake).disk;
            && disk.baked == w.disk.baked && disk.raw == w.disk.raw && disk.manifest.Some?
            && var m := disk.manifest.value;
               && (p in m.parts <==> p in disk.baked) && (p in m.parts ==> m.parts[p] == disk.baked[p].hash)
               && (r in m.segments <==> r in w.process.segments)
               && (r in m.segments ==> m.segments[r] == w.process.segments[r])
               && p.hour in m.bakes && m.bakes[p.hour] == w.process.bake
  {
    RunIsSafe(steps);
    RunIsHalfSwapped(steps);
  }

  /** One step after another, each of them possible. */
  ghost predicate Leads(w: World, steps: seq<Step>, end: World)
    decreases |steps|
  {
    if steps == [] then w == end else Possible(w, steps[0]) && Leads(Next(w, steps[0]), steps[1..], end)
  }

  lemma LeadsOn(w: World, s: Step, steps: seq<Step>, end: World)
    requires Possible(w, s) && Leads(Next(w, s), steps, end)
    ensures Leads(w, [s] + steps, end)
  {
    assert ([s] + steps)[1..] == steps;
  }

  /** A bake under way can be finished: its tables swapped one after another and the bake recorded. */
  lemma {:induction false} BakeCanFinish(w: World) returns (steps: seq<Step>, end: World)
    requires w.process.Swapping? && Safe(w)
    ensures Leads(w, steps, end) && end.process.Idle? && end.disk.raw == w.disk.raw && end.gone == w.gone
    ensures end.disk.manifest.Some? && w.process.hour in end.disk.manifest.value.bakes
            && end.disk.manifest.value.bakes[w.process.hour] == w.process.bake
    decreases |w.process.tables|
  {
    if w.process.tables == {} {
      steps, end := [RecordBake], Next(w, RecordBake);
      LeadsOn(w, RecordBake, [], end);
    } else {
      var t :| t in w.process.tables;
      var n := Next(w, SwapTable(t));
      SwapIsSafe(w, t);
      steps, end := BakeCanFinish(n);
      LeadsOn(w, SwapTable(t), steps, end);
      steps := [SwapTable(t)] + steps;
    }
  }

  /** A bake can begin whenever the lock is free and nothing of the hour was pruned; it takes the hour's segments as
      they are then, and will swap every table. */
  lemma BakeBegins(w: World, hour: Key, bake: Bake, parts: map<PartPath, File>)
    requires w.process.Idle? && forall p :: p in parts ==> p.hour == hour && p.table in TABLES
    ensures Possible(w, StartBake(hour, bake, parts))
    ensures var n := Next(w, StartBake(hour, bake, parts));
            && n.disk == w.disk && n.gone == w.gone
            && if w.disk.manifest.Some? && HasPruned(w.disk.manifest.value, hour) then n == w
               else && n.process.Swapping? && n.process.hour == hour && n.process.bake == bake
                    && n.process.parts == parts && n.process.tables == TABLES
                    && (forall p :: p in n.process.segments <==> p in w.disk.raw && p.hour == hour)
                    && (forall p :: p in n.process.segments ==> n.process.segments[p] == w.disk.raw[p])
  {
  }

  /** All that is left to unlink can be, one file after another. */
  lemma {:induction false} UnlinkingCanFinish(w: World) returns (steps: seq<Step>, end: World)
    requires w.process.Unlinking?
    ensures Leads(w, steps, end) && end.process.Idle? && end.disk.manifest == w.disk.manifest
    ensures end.disk.baked == w.disk.baked && forall p :: p in end.disk.raw <==> p in w.disk.raw && p !in w.process.left
    ensures forall p :: p in w.disk.raw && p in w.process.left ==> p in end.gone && end.gone[p] == w.disk.raw[p]
    ensures forall p :: p in w.gone && p !in w.disk.raw ==> p in end.gone && end.gone[p] == w.gone[p]
    decreases |w.process.left|
  {
    if w.process.left == {} {
      steps, end := [Done], Next(w, Done);
      LeadsOn(w, Done, [], end);
    } else {
      var p :| p in w.process.left;
      var n := Next(w, Unlink(p));
      steps, end := UnlinkingCanFinish(n);
      LeadsOn(w, Unlink(p), steps, end);
      steps := [Unlink(p)] + steps;
    }
  }

  /** From a free lock, an hour that is due can be pruned: afterwards none of its raw segments is on disk, each is on
      record as it was, and its parts are untouched. */
  lemma DueHourCanGo(w: World, hour: Key, policy: Policy) returns (steps: seq<Step>, end: World)
    requires Safe(w) && w.process.Idle? && w.disk.manifest.Some?
    requires Due(w.disk, w.disk.manifest.value, hour, policy) && exists p :: p in w.disk.raw && p.hour == hour
    ensures Leads(w, steps, end) && end.process.Idle? && end.disk.baked == w.disk.baked && end.disk.manifest.Some?
    ensures forall p :: p in end.disk.raw <==> p in w.disk.raw && p.hour != hour
    ensures forall p :: p in w.disk.raw && p.hour == hour ==>
              Recorded(end.disk.manifest.value, p, w.disk.raw[p]) && p in end.gone && end.gone[p] == w.disk.raw[p]
  {
    var a := Next(w, StartSurvey);
    var b := Next(a, SurveyHour(hour, policy));
    DueIsDecided(w.disk, hour, policy, b.process.records);
    RecordsAreTaken(w.disk.manifest.value, b.process.records, w.disk.raw);
    var c := Next(b, RecordPruned);
    steps, end := UnlinkingCanFinish(c);
    LeadsOn(b, RecordPruned, steps, end);
    LeadsOn(a, SurveyHour(hour, policy), [RecordPruned] + steps, end);
    LeadsOn(w, StartSurvey, [SurveyHour(hour, policy)] + ([RecordPruned] + steps), end);
    steps := [StartSurvey] + ([SurveyHour(hour, policy)] + ([RecordPruned] + steps));
  }

  lemma DueIsDecided(disk: Disk, hour: Key, policy: Policy, records: map<SegPath, File>)
    requires disk.manifest.Some? && Due(disk, disk.manifest.value, hour, policy)
    requires records == map[] + Chosen(disk, hour, policy)
    ensures forall p :: p in records <==> p in disk.raw && p.hour == hour
    ensures forall p :: p in records ==> records[p] == disk.raw[p]
    ensures (exists p :: p in disk.raw && p.hour == hour) ==> records != map[]
  {
    forall p ensures p in records <==> p in disk.raw && p.hour == hour
      ensures p in records ==> records[p] == disk.raw[p]
    {
      SurveyTakesWhatIsDue(disk, hour, policy, p);
    }
  }

  lemma RecordsAreTaken(m: Manifest, records: map<SegPath, File>, raw: map<SegPath, File>)
    requires ValidManifest(m) && forall p :: p in records ==> p in raw && IsBaked(m, p, records[p])
    ensures WithPruned(m, records).Some?
    ensures forall p :: p in records ==> Recorded(WithPruned(m, records).value, p, records[p])
  {
  }

  /** A crash between recording and unlinking does no harm: an hour that was prunable still is, with any of
      its recorded segments already gone. */
  lemma PruningResumes(f: Facts, g: Facts, m: Manifest, records: map<SegPath, File>, policy: Policy)
    requires Decide(f, Some(m), policy).prunable && Hashed(f) && WithPruned(m, records).Some?
    requires g.hour == f.hour && g.parts == f.parts
    requires forall p :: p in g.segments ==> p in f.segments && g.segments[p] == f.segments[p]
    requires forall p :: p in f.segments && p !in g.segments ==> p in records
    ensures Decide(g, WithPruned(m, records), policy).prunable
  {
    var n := WithPruned(m, records).value;
    PrunableMeansNothingSpeaks(f, Some(m), policy);
    forall r | r in REASONS ensures !Speaks(g, Some(n), policy, r) {
      assert !SegmentSays(g, n, r);
      forall p | p in n.parts && p.hour == g.hour ensures PartVerdict(FoundPart(g, p), n.parts[p]) == None {
        assert FoundPart(g, p) == FoundPart(f, p);
      }
      assert !PartSays(g, n, r);
      assert !SegmentGone(g, n);
    }
    forall p | p in n.parts && p.hour == g.hour ensures PartVerdict(FoundPart(g, p), n.parts[p]) == None {
      assert FoundPart(g, p) == FoundPart(f, p);
    }
    assert !SegmentSays(g, n, Unverified) && !PartSays(g, n, Unverified);
  }
}
