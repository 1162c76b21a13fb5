/** The configuration compiler: from the storages of an Instance to the pgBackRest repos and the
    one flat option map of its cluster. */
module Repos {
  import opened Wrappers
  import opened Text
  import opened Retention
  import Slots

  datatype S3 = S3(bucket: string, region: string, endpoint: string, forcePathStyle: Option<bool>,
      verifyTLS: Option<bool>)

  /** A BackupStorage object; `credentials` is whether its Secret yields both access keys. */
  datatype BackupStorage = BackupStorage(isS3: bool, s3: Option<S3>, credentials: bool)

  /** One entry of an Instance's storage list. */
  datatype Storage = Storage(name: string, schedules: seq<Schedule>, pitr: bool)

  datatype Repo = Repo(name: string, bucket: string, region: string, endpoint: string, crons: Option<Crons>)

  datatype Reason =
    | ClassRejected | ImageUnavailable | NoStoragesConfigured | StorageReferenceMissing | SlotAssignmentFailed
    | StorageNotFound | StorageTypeUnsupported | RetentionTypeUnsupported | CredentialsUnavailable

  // ---------------------------------------------------------------- one repo

  function RepoPath(uid: string, repo: string): string { "/pgbackrest/" + uid + "/" + repo }

  /** Where the repo's files live; without an Instance UID pgBackRest's default applies. */
  function PathKeys(repo: string, uid: string): map<string, string> {
    if uid != "" then map[RepoKey(repo, "path") := RepoPath(uid, repo)] else map[]
  }

  function TransportKeys(repo: string, s3: S3): map<string, string> {
    (if s3.forcePathStyle == Some(true) then map[RepoKey(repo, "s3-uri-style") := "path"] else map[])
    + (if s3.verifyTLS == Some(false) then map[RepoKey(repo, "storage-verify-tls") := "n"] else map[])
  }

  /** Everything one storage contributes to the option map. */
  function StorageKeys(repo: string, storage: Storage, s3: S3, uid: string): map<string, string> {
    PathKeys(repo, uid) + RetentionKeys(repo, Effects(storage.schedules)) + TransportKeys(repo, s3)
  }

  /** A repo and its path, or the refusal of a storage that is not S3. */
  function BuildPGBackRestRepo(repo: string, backend: BackupStorage, uid: string): Result<(Repo, map<string, string>),
      Reason>
  {
    if !backend.isS3 || backend.s3.None? then Err(StorageTypeUnsupported)
    else
      var s3 := backend.s3.value;
      Ok((Repo(repo, TrimSlashes(s3.bucket), s3.region, s3.endpoint, None), PathKeys(repo, uid)))
  }

  // ---------------------------------------------------------------- all storages

  datatype Compiled = Compiled(repos: seq<Repo>, global: map<string, string>)

  /** The first check a storage fails, in the order the checks are made. */
  function Problem(s: Storage, slots: Slots.SlotMap, objects: map<string, BackupStorage>): Option<Reason> {
    if s.name == "" then Some(StorageReferenceMissing)
    else if s.name !in slots then Some(SlotAssignmentFailed)
    else if s.name !in objects then Some(StorageNotFound)
    else if !objects[s.name].isS3 || objects[s.name].s3.None? then Some(StorageTypeUnsupported)
    else if Refuse in Effects(s.schedules) then Some(RetentionTypeUnsupported)
    else if !objects[s.name].credentials then Some(CredentialsUnavailable)
    else None
  }

  function FirstProblem(storages: seq<Storage>, slots: Slots.SlotMap,
      objects: map<string, BackupStorage>): Option<Reason>
  {
    if storages == [] then None
    else
      var last := |storages| - 1;
      var earlier := FirstProblem(storages[..last], slots, objects);
      if earlier.Some? then earlier else Problem(storages[last], slots, objects)
  }

  ghost predicate Valid(s: Storage, slots: Slots.SlotMap, objects: map<string, BackupStorage>) {
    Problem(s, slots, objects).None?
  }

  ghost predicate AllValid(storages: seq<Storage>, slots: Slots.SlotMap, objects: map<string, BackupStorage>) {
    forall s :: s in storages ==> Valid(s, slots, objects)
  }

  /** The repo and the options a valid storage yields alone. */
  function RepoFor(s: Storage, slots: Slots.SlotMap, objects: map<string, BackupStorage>): Repo
    requires Problem(s, slots, objects).None?
  {
    var s3 := objects[s.name].s3.value;
    Repo(RepoName(slots[s.name]), TrimSlashes(s3.bucket), s3.region, s3.endpoint,
         if s.schedules == [] then None else Some(CronsOf(s.schedules)))
  }

  function KeysFor(s: Storage, slots: Slots.SlotMap, objects: map<string, BackupStorage>,
      uid: string): map<string, string>
    requires Problem(s, slots, objects).None?
  {
    StorageKeys(RepoName(slots[s.name]), s, objects[s.name].s3.value, uid)
  }

  function Merged(storages: seq<Storage>, slots: Slots.SlotMap, objects: map<string, BackupStorage>,
      uid: string): Compiled
    requires FirstProblem(storages, slots, objects).None?
  {
    if storages == [] then Compiled([], map[])
    else
      var last := storages[|storages| - 1];
      var init := Merged(storages[..|storages| - 1], slots, objects, uid);
      Compiled(init.repos + [RepoFor(last, slots, objects)], init.global + KeysFor(last, slots, objects, uid))
  }

  function Compile(storages: seq<Storage>, slots: Slots.SlotMap, objects: map<string, BackupStorage>, uid: string)
    : Result<Compiled, Reason>
  {
    match FirstProblem(storages, slots, objects)
    case Some(reason) => Err(reason)
    case None => Ok(Merged(storages, slots, objects, uid))
  }

  /** The loop over the storages: it stops at the first bad one and otherwise lets each write its
      options into the same map. */
  method CompileStorages(storages: seq<Storage>, slots: Slots.SlotMap, objects: map<string, BackupStorage>, uid: string)
    returns (r: Result<Compiled, Reason>)
    ensures r == Compile(storages, slots, objects, uid)
  {
    var repos: seq<Repo> := [];
    var global: map<string, string> := map[];
    for i := 0 to |storages|
      invariant FirstProblem(storages[..i], slots, objects).None?
      invariant Compiled(repos, global) == Merged(storages[..i], slots, objects, uid)
    {
      StopAt(storages, i, slots, objects);
      assert storages[..i + 1][..i] == storages[..i];
      var one := CompileStorage(global, storages[i], slots, objects, uid);
      if one.Err? { return Err(one.error); }
      repos := repos + [one.value.0];
      global := one.value.1;
    }
    assert storages[..|storages|] == storages;
    return Ok(Compiled(repos, global));
  }

  /** The body of that loop. */
  method CompileStorage(before: map<string, string>, s: Storage, slots: Slots.SlotMap,
      objects: map<string, BackupStorage>, uid: string)
    returns (r: Result<(Repo, map<string, string>), Reason>)
    ensures Problem(s, slots, objects).Some? ==> r == Err(Problem(s, slots, objects).value)
    ensures Problem(s, slots, objects).None? ==>
              r == Ok((RepoFor(s, slots, objects), before + KeysFor(s, slots, objects, uid)))
  {
    if s.name == "" { return Err(StorageReferenceMissing); }
    if s.name !in slots { return Err(SlotAssignmentFailed); }
    var repoName := RepoName(slots[s.name]);
    if s.name !in objects { return Err(StorageNotFound); }
    var backend := objects[s.name];
    var built := BuildPGBackRestRepo(repoName, backend, uid);
    if built.Err? { return Err(built.error); }
    var (repo, path) := built.value;
    var global := before + path;
    ghost var effects := Effects(s.schedules);
    if |s.schedules| > 0 {
      var crons := BuildPGBackRestSchedules(s.schedules);
      repo := repo.(crons := Some(crons));
      var done;
      global, done := ApplyRetentionConfig(global, repoName, s.schedules);
      if done < |s.schedules| {
        assert effects[done] == Refuse;
        return Err(RetentionTypeUnsupported);
      }
      assert effects[..done] == effects;
    }
    assert Refuse !in effects && global == before + path + RetentionKeys(repoName, effects);
    if !backend.credentials { return Err(CredentialsUnavailable); }
    global := ApplyTransport(global, repoName, backend.s3.value);
    MergeOnce(before, path, RetentionKeys(repoName, effects), TransportKeys(repoName, backend.s3.value));
    return Ok((repo, global));
  }

  method ApplyTransport(before: map<string, string>, repo: string, s3: S3) returns (global: map<string, string>)
    ensures global == before + TransportKeys(repo, s3)
  {
    global := before;
    if s3.forcePathStyle == Some(true) {
      global := global[RepoKey(repo, "s3-uri-style") := "path"];
    }
    if s3.verifyTLS == Some(false) {
      global := global[RepoKey(repo, "storage-verify-tls") := "n"];
    }
  }

  lemma MergeOnce(g: map<string, string>, p: map<string, string>, q: map<string, string>, r: map<string, string>)
    ensures g + p + q + r == g + (p + q + r)
  {
  }

  lemma {:induction false} StopAt(storages: seq<Storage>, i: nat, slots: Slots.SlotMap,
      objects: map<string, BackupStorage>)
    requires i < |storages| && FirstProblem(storages[..i], slots, objects).None?
    ensures FirstProblem(storages[..i + 1], slots, objects) == Problem(storages[i], slots, objects)
    ensures Problem(storages[i], slots, objects).Some? ==>
              FirstProblem(storages, slots, objects) == Problem(storages[i], slots, objects)
  {
    assert storages[..i + 1][..i] == storages[..i];
    if Problem(storages[i], slots, objects).Some? {
      KeepsProblem(storages, i + 1, slots, objects);
    }
  }

  lemma {:induction false} KeepsProblem(storages: seq<Storage>, i: nat, slots: Slots.SlotMap,
      objects: map<string, BackupStorage>)
    requires i <= |storages| && FirstProblem(storages[..i], slots, objects).Some?
    ensures FirstProblem(storages, slots, objects) == FirstProblem(storages[..i], slots, objects)
  {
    if i < |storages| {
      assert storages[..|storages| - 1][..i] == storages[..i];
      KeepsProblem(storages[..|storages| - 1], i, slots, objects);
    } else {
      assert storages[..i] == storages;
    }
  }

  // ---------------------------------------------------------------- the option map

  ghost predicate DistinctNames(storages: seq<Storage>) {
    forall i, j :: 0 <= i < j < |storages| ==> storages[i].name != storages[j].name
  }

  lemma {:induction false} ProblemFree(storages: seq<Storage>, slots: Slots.SlotMap,
      objects: map<string, BackupStorage>)
    ensures FirstProblem(storages, slots, objects).None? <==> AllValid(storages, slots, objects)
  {
    if storages != [] {
      var last := |storages| - 1;
      ProblemFree(storages[..last], slots, objects);
      ValidOneMore(storages, slots, objects);
    }
  }

  lemma ValidOneMore(storages: seq<Storage>, slots: Slots.SlotMap, objects: map<string, BackupStorage>)
    requires storages != []
    ensures var last := |storages| - 1;
            && (AllValid(storages, slots, objects) ==> AllValid(storages[..last], slots, objects))
            && (AllValid(storages, slots, objects) ==> Valid(storages[last], slots, objects))
            && (AllValid(storages[..last], slots, objects) && Valid(storages[last], slots, objects) ==>
                  AllValid(storages, slots, objects))
  {
    var last := |storages| - 1;
    assert storages == storages[..last] + [storages[last]];
    assert forall s :: s in storages <==> s in storages[..last] || s == storages[last];
  }

  /** Every option a storage yields is named after its own repo. */
  lemma KeysBelong(repo: string, s: Storage, s3: S3, uid: string, k: string)
    requires k in StorageKeys(repo, s, s3, uid)
    ensures HasPrefix(k, repo + "-")
  {
    LimitKeysBelong(repo, LastFull(Effects(s.schedules)), LastDiff(Effects(s.schedules)), k);
    KeyBelongs(repo, "path");
    KeyBelongs(repo, "s3-uri-style");
    KeyBelongs(repo, "storage-verify-tls");
  }

  lemma LimitKeysBelong(repo: string, full: Option<Limit>, diff: Option<Limit>, k: string)
    ensures k in LimitKeys(repo, full, diff) ==> HasPrefix(k, repo + "-")
  {
    KeyBelongs(repo, "retention-full");
    KeyBelongs(repo, "retention-full-type");
    KeyBelongs(repo, "retention-diff");
  }

  lemma KeyBelongs(repo: string, x: string)
    ensures HasPrefix(RepoKey(repo, x), repo + "-")
  {
    assert RepoKey(repo, x)[..|repo| + 1] == repo + "-";
  }

  /** Two storages in different slots share no option. */
  lemma StoragesApart(s: Storage, t: Storage, slots: Slots.SlotMap, objects: map<string, BackupStorage>, uid: string)
    requires Valid(s, slots, objects) && Valid(t, slots, objects) && slots[s.name] != slots[t.name]
    ensures KeysFor(s, slots, objects, uid).Keys !! KeysFor(t, slots, objects, uid).Keys
  {
    forall k | k in KeysFor(s, slots, objects, uid) && k in KeysFor(t, slots, objects, uid) ensures false {
      KeysBelong(RepoName(slots[s.name]), s, objects[s.name].s3.value, uid, k);
      KeysBelong(RepoName(slots[t.name]), t, objects[t.name].s3.value, uid, k);
      RepoPrefixesApart(slots[s.name], slots[t.name], k);
    }
  }

  /** `part` agrees with `whole` wherever it says anything. */
  ghost predicate Within(part: map<string, string>, whole: map<string, string>) {
    forall k :: k in part ==> k in whole && whole[k] == part[k]
  }

  /** `whole` is the union of `parts`, no two of which share a key. */
  ghost predicate DisjointUnion(parts: seq<map<string, string>>, whole: map<string, string>) {
    && (forall i, j :: 0 <= i < j < |parts| ==> parts[i].Keys !! parts[j].Keys)
    && (forall i :: 0 <= i < |parts| ==> Within(parts[i], whole))
    && (forall k :: k in whole ==> exists i :: 0 <= i < |parts| && k in parts[i])
  }

  /** Nothing is lost and nothing is added: the merged map is the disjoint union of what each
      storage yields alone, although the loop lets each overwrite the ones before. */
  lemma GlobalIsUnion(storages: seq<Storage>, slots: Slots.SlotMap, objects: map<string, BackupStorage>, uid: string)
    requires AllValid(storages, slots, objects) && DistinctNames(storages) && Slots.Injective(slots)
    requires FirstProblem(storages, slots, objects).None?
    ensures DisjointUnion(Parts(storages, slots, objects, uid), Merged(storages, slots, objects, uid).global)
  {
    PartsApart(storages, slots, objects, uid);
    FoldIsUnion(Parts(storages, slots, objects, uid));
    MergedIsFold(storages, slots, objects, uid);
  }

  lemma PartsApart(storages: seq<Storage>, slots: Slots.SlotMap, objects: map<string, BackupStorage>, uid: string)
    requires AllValid(storages, slots, objects) && DistinctNames(storages) && Slots.Injective(slots)
    ensures var parts := Parts(storages, slots, objects, uid);
            forall i, j :: 0 <= i < j < |parts| ==> parts[i].Keys !! parts[j].Keys
  {
    forall i, j | 0 <= i < j < |storages|
      ensures Parts(storages, slots, objects, uid)[i].Keys !! Parts(storages, slots, objects, uid)[j].Keys
    {
      assert storages[i] in storages && storages[j] in storages;
      StoragesApart(storages[i], storages[j], slots, objects, uid);
    }
  }

  function Parts(storages: seq<Storage>, slots: Slots.SlotMap, objects: map<string, BackupStorage>,
      uid: string): seq<map<string, string>>
  {
    seq(|storages|, i requires 0 <= i < |storages| =>
      if Problem(storages[i], slots, objects).None? then KeysFor(storages[i], slots, objects, uid) else map[])
  }

  /** Maps written one over the other. */
  function Fold(parts: seq<map<string, string>>): map<string, string> {
    if parts == [] then map[] else Fold(parts[..|parts| - 1]) + parts[|parts| - 1]
  }

  lemma {:induction false} MergedIsFold(storages: seq<Storage>, slots: Slots.SlotMap,
      objects: map<string, BackupStorage>, uid: string)
    requires FirstProblem(storages, slots, objects).None?
    ensures Merged(storages, slots, objects, uid).global == Fold(Parts(storages, slots, objects, uid))
  {
    if storages != [] {
      MergedIsFold(storages[..|storages| - 1], slots, objects, uid);
      PartsOneMore(storages, slots, objects, uid);
    }
  }

  lemma PartsOneMore(storages: seq<Storage>, slots: Slots.SlotMap, objects: map<string, BackupStorage>, uid: string)
    requires storages != []
    ensures var parts, last := Parts(storages, slots, objects, uid), |storages| - 1;
            && parts[..last] == Parts(storages[..last], slots, objects, uid)
            && (Problem(storages[last], slots, objects).None? ==>
                 parts[last] == KeysFor(storages[last], slots, objects, uid))
  {
  }

  lemma {:induction false} FoldIsUnion(parts: seq<map<string, string>>)
    requires forall i, j :: 0 <= i < j < |parts| ==> parts[i].Keys !! parts[j].Keys
    ensures forall i :: 0 <= i < |parts| ==> Within(parts[i], Fold(parts))
    ensures forall k :: k in Fold(parts) ==> exists i :: 0 <= i < |parts| && k in parts[i]
  {
    if parts != [] {
      var last := |parts| - 1;
      FoldIsUnion(parts[..last]);
      forall i | 0 <= i < last ensures Within(parts[i], Fold(parts)) {
        assert parts[..last][i] == parts[i];
        assert parts[i].Keys !! parts[last].Keys;
      }
    }
  }

  /** Hence the order of the list is irrelevant to the options. */
  lemma GlobalIgnoresOrder(a: seq<Storage>, b: seq<Storage>, slots: Slots.SlotMap, objects: map<string, BackupStorage>,
      uid: string)
    requires multiset(a) == multiset(b)
    requires DistinctNames(a) && DistinctNames(b) && Slots.Injective(slots)
    ensures Compile(a, slots, objects, uid).Ok? <==> Compile(b, slots, objects, uid).Ok?
    ensures Compile(a, slots, objects, uid).Ok? ==>
              Compile(a, slots, objects, uid).value.global == Compile(b, slots, objects, uid).value.global
  {
    forall s ensures s in a <==> s in b {
      assert s in multiset(a) <==> s in multiset(b);
    }
    ProblemFree(a, slots, objects);
    ProblemFree(b, slots, objects);
    if AllValid(a, slots, objects) {
      var g, h := Merged(a, slots, objects, uid).global, Merged(b, slots, objects, uid).global;
      WithinEachOther(a, b, slots, objects, uid);
      WithinEachOther(b, a, slots, objects, uid);
      assert g == h;
    }
  }

  lemma WithinEachOther(a: seq<Storage>, b: seq<Storage>, slots: Slots.SlotMap, objects: map<string, BackupStorage>,
      uid: string)
    requires forall s :: s in a ==> s in b
    requires AllValid(a, slots, objects) && AllValid(b, slots, objects) && DistinctNames(a) && DistinctNames(b)
               && Slots.Injective(slots)
    requires FirstProblem(a, slots, objects).None? && FirstProblem(b, slots, objects).None?
    ensures Within(Merged(a, slots, objects, uid).global, Merged(b, slots, objects, uid).global)
  {
    GlobalIsUnion(a, slots, objects, uid);
    GlobalIsUnion(b, slots, objects, uid);
    PartsWithin(a, b, slots, objects, uid);
    UnionWithin(Parts(a, slots, objects, uid), Parts(b, slots, objects, uid),
                Merged(a, slots, objects, uid).global, Merged(b, slots, objects, uid).global);
  }

  lemma PartsWithin(a: seq<Storage>, b: seq<Storage>, slots: Slots.SlotMap, objects: map<string, BackupStorage>,
      uid: string)
    requires forall s :: s in a ==> s in b
    ensures var p, q := Parts(a, slots, objects, uid), Parts(b, slots, objects, uid);
            forall i :: 0 <= i < |p| ==> p[i] in q
  {
    var p, q := Parts(a, slots, objects, uid), Parts(b, slots, objects, uid);
    forall i | 0 <= i < |p| ensures p[i] in q {
      assert a[i] in b;
      var j :| 0 <= j < |b| && b[j] == a[i];
      assert q[j] == p[i];
    }
  }

  lemma UnionWithin(p: seq<map<string, string>>, q: seq<map<string, string>>, g: map<string, string>,
      h: map<string, string>)
    requires DisjointUnion(p, g) && DisjointUnion(q, h)
    requires forall i :: 0 <= i < |p| ==> p[i] in q
    ensures Within(g, h)
  {
    forall k | k in g ensures k in h && h[k] == g[k] {
      var i :| 0 <= i < |p| && k in p[i];
      var j :| 0 <= j < |q| && q[j] == p[i];
      assert Within(p[i], g) && Within(q[j], h);
    }
  }

  /** One repo per storage, in list order: named after its slot, at its storage's bucket, region and
      endpoint, with its schedules' crons, and without any for a storage without schedules. */
  lemma ReposInOrder(storages: seq<Storage>, slots: Slots.SlotMap, objects: map<string, BackupStorage>, uid: string)
    requires FirstProblem(storages, slots, objects).None?
    ensures var repos := Merged(storages, slots, objects, uid).repos;
            |repos| == |storages| && forall i :: 0 <= i < |storages| ==>
                 Valid(storages[i], slots, objects) && IsRepoOf(repos[i], storages[i], slots, objects)
  {
    ProblemFree(storages, slots, objects);
    ReposMatch(storages, slots, objects, uid);
    forall i | 0 <= i < |storages| ensures Valid(storages[i], slots, objects) {
      assert storages[i] in storages;
    }
  }

  ghost predicate Match(repos: seq<Repo>, storages: seq<Storage>, slots: Slots.SlotMap,
      objects: map<string, BackupStorage>)
  {
    |repos| == |storages| && forall i :: 0 <= i < |storages| ==> IsRepoOf(repos[i], storages[i], slots, objects)
  }

  lemma {:induction false} ReposMatch(storages: seq<Storage>, slots: Slots.SlotMap,
      objects: map<string, BackupStorage>, uid: string)
    requires FirstProblem(storages, slots, objects).None?
    ensures Match(Merged(storages, slots, objects, uid).repos, storages, slots, objects)
  {
    if storages != [] {
      var init, last := storages[..|storages| - 1], storages[|storages| - 1];
      ReposMatch(init, slots, objects, uid);
      RepoForIs(last, slots, objects);
      OneMoreRepo(Merged(init, slots, objects, uid).repos, RepoFor(last, slots, objects), storages, slots, objects);
    }
  }

  lemma OneMoreRepo(repos: seq<Repo>, r: Repo, storages: seq<Storage>, slots: Slots.SlotMap,
      objects: map<string, BackupStorage>)
    requires storages != [] && Match(repos, storages[..|storages| - 1], slots, objects)
    requires IsRepoOf(r, storages[|storages| - 1], slots, objects)
    ensures Match(repos + [r], storages, slots, objects)
  {
    forall i | 0 <= i < |storages| ensures IsRepoOf((repos + [r])[i], storages[i], slots, objects) {
      if i < |repos| { assert storages[..|storages| - 1][i] == storages[i]; }
    }
  }

  lemma RepoForIs(s: Storage, slots: Slots.SlotMap, objects: map<string, BackupStorage>)
    requires Valid(s, slots, objects)
    ensures IsRepoOf(RepoFor(s, slots, objects), s, slots, objects)
  {
  }

  ghost predicate IsRepoOf(r: Repo, s: Storage, slots: Slots.SlotMap, objects: map<string, BackupStorage>) {
    && s.name in slots && s.name in objects && objects[s.name].s3.Some?
    && r.name == RepoName(slots[s.name])
    && r.bucket == TrimSlashes(objects[s.name].s3.value.bucket)
    && r.region == objects[s.name].s3.value.region && r.endpoint == objects[s.name].s3.value.endpoint
    && (r.crons.Some? <==> s.schedules != [])
    && (r.crons.Some? ==> r.crons.value == CronsOf(s.schedules))
  }

  /** Where a storage's repo is and how it is reached, read off a compiled option map. */
  ghost predicate SameConnection(repo: string, a: map<string, string>, b: map<string, string>) {
    && Get(a, RepoKey(repo, "path")) == Get(b, RepoKey(repo, "path"))
    && Get(a, RepoKey(repo, "s3-uri-style")) == Get(b, RepoKey(repo, "s3-uri-style"))
    && Get(a, RepoKey(repo, "storage-verify-tls")) == Get(b, RepoKey(repo, "storage-verify-tls"))
  }

  lemma OptionNamesApart(repo: string)
    ensures forall x, y :: x in CONNECTION_OPTIONS && y in CONNECTION_OPTIONS && x != y ==>
              RepoKey(repo, x) != RepoKey(repo, y)
  {
    forall x, y | x in CONNECTION_OPTIONS && y in CONNECTION_OPTIONS && x != y
      ensures RepoKey(repo, x) != RepoKey(repo, y)
    {
      OptionKeysApart(repo, x, y);
    }
  }

  const CONNECTION_OPTIONS := {"path", "s3-uri-style", "storage-verify-tls"}

  /** The schedules of a storage leave its connection options alone. */
  lemma ConnectionOfStorage(repo: string, s: Storage, s3: S3, uid: string)
    ensures SameConnection(repo, StorageKeys(repo, s, s3, uid), PathKeys(repo, uid) + TransportKeys(repo, s3))
  {
    ConnectionOption(repo, s, s3, uid, "path");
    ConnectionOption(repo, s, s3, uid, "s3-uri-style");
    ConnectionOption(repo, s, s3, uid, "storage-verify-tls");
  }

  lemma ConnectionOption(repo: string, s: Storage, s3: S3, uid: string, x: string)
    requires x in CONNECTION_OPTIONS
    ensures Get(StorageKeys(repo, s, s3, uid), RepoKey(repo, x)) ==
              Get(PathKeys(repo, uid) + TransportKeys(repo, s3), RepoKey(repo, x))
  {
    NoLimitKey(repo, LastFull(Effects(s.schedules)), LastDiff(Effects(s.schedules)), x);
    Overlay(PathKeys(repo, uid), RetentionKeys(repo, Effects(s.schedules)), TransportKeys(repo, s3), RepoKey(repo, x));
  }

  lemma NoLimitKey(repo: string, full: Option<Limit>, diff: Option<Limit>, x: string)
    requires x in CONNECTION_OPTIONS
    ensures RepoKey(repo, x) !in LimitKeys(repo, full, diff)
  {
    OptionKeysApart(repo, x, "retention-full");
    OptionKeysApart(repo, x, "retention-full-type");
    OptionKeysApart(repo, x, "retention-diff");
  }

  lemma Overlay(p: map<string, string>, q: map<string, string>, r: map<string, string>, k: string)
    requires k !in q
    ensures Get(p + q + r, k) == Get(p + r, k)
  {
  }

  /** In the merged map the connection options of a repo are those its own storage set. */
  lemma ConnectionInGlobal(storages: seq<Storage>, slots: Slots.SlotMap, objects: map<string, BackupStorage>,
      uid: string, s: Storage)
    requires AllValid(storages, slots, objects) && DistinctNames(storages) && Slots.Injective(slots)
    requires FirstProblem(storages, slots, objects).None? && s in storages
    ensures var repo := RepoName(slots[s.name]);
            SameConnection(repo, Merged(storages, slots, objects, uid).global,
                           PathKeys(repo, uid) + TransportKeys(repo, objects[s.name].s3.value))
  {
    OwnOption(storages, slots, objects, uid, s, "path");
    OwnOption(storages, slots, objects, uid, s, "s3-uri-style");
    OwnOption(storages, slots, objects, uid, s, "storage-verify-tls");
    ConnectionOfStorage(RepoName(slots[s.name]), s, objects[s.name].s3.value, uid);
  }

  lemma OwnOption(storages: seq<Storage>, slots: Slots.SlotMap, objects: map<string, BackupStorage>, uid: string,
      s: Storage, x: string)
    requires AllValid(storages, slots, objects) && DistinctNames(storages) && Slots.Injective(slots)
    requires FirstProblem(storages, slots, objects).None? && s in storages
    ensures var k := RepoKey(RepoName(slots[s.name]), x);
            Get(Merged(storages, slots, objects, uid).global, k) == Get(KeysFor(s, slots, objects, uid), k)
  {
    var k, parts := RepoKey(RepoName(slots[s.name]), x), Parts(storages, slots, objects, uid);
    GlobalIsUnion(storages, slots, objects, uid);
    KeyBelongs(RepoName(slots[s.name]), x);
    var n :| 0 <= n < |storages| && storages[n] == s;
    forall m | 0 <= m < |parts| && k in parts[m] ensures m == n {
      OwnPart(storages, slots, objects, uid, n, m, k);
    }
    UnionHere(parts, Merged(storages, slots, objects, uid).global, n, k);
  }

  lemma UnionHere(parts: seq<map<string, string>>, whole: map<string, string>, n: nat, k: string)
    requires DisjointUnion(parts, whole) && n < |parts| && forall m :: 0 <= m < |parts| && k in parts[m] ==> m == n
    ensures Get(whole, k) == Get(parts[n], k)
  {
    assert Within(parts[n], whole);
  }

  lemma OwnPart(storages: seq<Storage>, slots: Slots.SlotMap, objects: map<string, BackupStorage>, uid: string, n: nat,
      m: nat, k: string)
    requires n < |storages| && m < |storages| && AllValid(storages, slots, objects)
    requires DistinctNames(storages) && Slots.Injective(slots)
    requires storages[n] in storages && HasPrefix(k, RepoName(slots[storages[n].name]) + "-")
    requires k in Parts(storages, slots, objects, uid)[m]
    ensures n == m
  {
    var s, t := storages[n], storages[m];
    assert t in storages;
    KeysBelong(RepoName(slots[t.name]), t, objects[t.name].s3.value, uid, k);
    if slots[s.name] != slots[t.name] {
      RepoPrefixesApart(slots[s.name], slots[t.name], k);
    }
  }

  // ---------------------------------------------------------------- paths

  /** Two repos share a path only if they are the same repo of the same Instance. */
  lemma PathsInjective(u: string, i: int, v: string, j: int)
    requires RepoPath(u, RepoName(i)) == RepoPath(v, RepoName(j))
    ensures u == v && i == j
  {
    var a, b := "/pgbackrest/" + u, "/pgbackrest/" + v;
    NoSlash(i);
    NoSlash(j);
    assert a + ['/'] + RepoName(i) == RepoPath(u, RepoName(i));
    assert b + ['/'] + RepoName(j) == RepoPath(v, RepoName(j));
    SplitAtLast(a, RepoName(i), b, RepoName(j), '/');
    assert u == a[12..] && v == b[12..];
    RepoNameInjective(i, j);
  }

  lemma NoSlash(i: int)
    ensures Free(RepoName(i), '/')
  {
    var n := if i + 1 < 0 then -(i + 1) else i + 1;
    assert Digits(NatText(n));
  }

  /** For UIDs without a slash, as Kubernetes gives them, no repo of one Instance lies inside a
      repo of another. */
  lemma PathsNotNested(u: string, i: int, v: string, j: int)
    requires u != v && Free(u, '/') && Free(v, '/')
    ensures !HasPrefix(RepoPath(v, RepoName(j)) + "/", RepoPath(u, RepoName(i)) + "/")
  {
    var x, y := RepoName(i) + "/", RepoName(j) + "/";
    PathSplits(u, RepoName(i));
    PathSplits(v, RepoName(j));
    SamePrefix("/pgbackrest/", u + ['/'] + x, v + ['/'] + y);
    if HasPrefix(v + ['/'] + y, u + ['/'] + x) { FirstPartsAgree(u, x, v, y); }
  }

  lemma PathSplits(uid: string, repo: string)
    ensures RepoPath(uid, repo) + "/" == "/pgbackrest/" + (uid + ['/'] + (repo + "/"))
  {
  }

  lemma FirstPartsAgree(u: string, x: string, v: string, y: string)
    requires Free(u, '/') && Free(v, '/') && HasPrefix(v + ['/'] + y, u + ['/'] + x)
    ensures u == v
  {
    var a, b := u + ['/'] + x, v + ['/'] + y;
    assert b == u + ['/'] + (x + b[|a|..]);
    SplitAtFirst(u, x + b[|a|..], v, y, '/');
  }

  lemma SamePrefix(p: string, a: string, b: string)
    ensures HasPrefix(p + b, p + a) <==> HasPrefix(b, a)
  {
    assert (p + a)[|p|..] == a && (p + b)[|p|..] == b;
    assert a <= b ==> p + b == p + a + b[|a|..];
  }

  // ---------------------------------------------------------------- which check fails

  /** Why a storage cannot be compiled: each reason presupposes that the ones before it do not apply. */
  ghost predicate FailsWith(s: Storage, slots: Slots.SlotMap, objects: map<string, BackupStorage>, reason: Reason) {
    var placed := s.name != "" && s.name in slots;
    var onS3 := placed && s.name in objects && objects[s.name].isS3 && objects[s.name].s3.Some?;
    var fit := forall i :: 0 <= i < |s.schedules| ==> !Unfit(s.schedules[i]);
    match reason
    case StorageReferenceMissing => s.name == ""
    case SlotAssignmentFailed => s.name != "" && s.name !in slots
    case StorageNotFound => placed && s.name !in objects
    case StorageTypeUnsupported => placed && s.name in objects && (!objects[s.name].isS3 || objects[s.name].s3.None?)
    case RetentionTypeUnsupported => onS3 && !fit
    case CredentialsUnavailable => onS3 && fit && !objects[s.name].credentials
    case _ => false
  }

  lemma ProblemIs(s: Storage, slots: Slots.SlotMap, objects: map<string, BackupStorage>, reason: Reason)
    ensures Problem(s, slots, objects) == Some(reason) <==> FailsWith(s, slots, objects, reason)
  {
    RetentionSucceedsIff(s.schedules);
  }

  /** Storage `i` is the first that cannot be compiled, for this reason. */
  ghost predicate FirstFails(storages: seq<Storage>, slots: Slots.SlotMap, objects: map<string, BackupStorage>, i: nat,
      reason: Reason)
  {
    && i < |storages| && FailsWith(storages[i], slots, objects, reason)
    && forall j, other :: 0 <= j < i ==> !FailsWith(storages[j], slots, objects, other)
  }

  /** A storage fits in if it has a name and a slot, its BackupStorage exists, is on S3 and has both
      access keys, and no schedule asks for a retention that cannot be had. */
  ghost predicate FitsIn(s: Storage, slots: Slots.SlotMap, objects: map<string, BackupStorage>) {
    && s.name != "" && s.name in slots && s.name in objects
    && objects[s.name].isS3 && objects[s.name].s3.Some? && objects[s.name].credentials
    && forall i :: 0 <= i < |s.schedules| ==> !Unfit(s.schedules[i])
  }

  lemma FitsIff(s: Storage, slots: Slots.SlotMap, objects: map<string, BackupStorage>)
    ensures Valid(s, slots, objects) <==> FitsIn(s, slots, objects)
  {
    RetentionSucceedsIff(s.schedules);
  }

  /** Compilation succeeds exactly if every storage fits in. */
  lemma CompilesIff(storages: seq<Storage>, slots: Slots.SlotMap, objects: map<string, BackupStorage>, uid: string)
    ensures Compile(storages, slots, objects, uid).Ok? <==> forall s :: s in storages ==> FitsIn(s, slots, objects)
  {
    ProblemFree(storages, slots, objects);
    forall s | s in storages ensures Valid(s, slots, objects) <==> FitsIn(s, slots, objects) {
      FitsIff(s, slots, objects);
    }
  }

  lemma {:induction false} FirstProblemAt(storages: seq<Storage>, slots: Slots.SlotMap,
      objects: map<string, BackupStorage>, i: nat, reason: Reason)
    requires FirstFails(storages, slots, objects, i, reason)
    ensures FirstProblem(storages, slots, objects) == Some(reason)
  {
    var last := |storages| - 1;
    if i < last {
      assert FirstFails(storages[..last], slots, objects, i, reason);
      FirstProblemAt(storages[..last], slots, objects, i, reason);
    } else {
      ProblemIs(storages[last], slots, objects, reason);
      forall s | s in storages[..last] ensures Valid(s, slots, objects) {
        var j :| 0 <= j < last && storages[j] == s;
        if !Valid(s, slots, objects) { ProblemIs(s, slots, objects, Problem(s, slots, objects).value); }
      }
      ProblemFree(storages[..last], slots, objects);
    }
  }

  /** And otherwise it reports why the first one that does not fit in does not. */
  lemma CompileReports(storages: seq<Storage>, slots: Slots.SlotMap, objects: map<string, BackupStorage>, uid: string,
      i: nat, reason: Reason)
    requires FirstFails(storages, slots, objects, i, reason)
    ensures Compile(storages, slots, objects, uid) == Err(reason)
  {
    FirstProblemAt(storages, slots, objects, i, reason);
  }

  // ---------------------------------------------------------------- retention in the merged map

  const RETENTION_OPTIONS := {"retention-full", "retention-full-type", "retention-diff"}

  /** In the merged map the retention options of a repo are those of its own storage's schedules. */
  lemma RetentionInGlobal(storages: seq<Storage>, slots: Slots.SlotMap, objects: map<string, BackupStorage>,
      uid: string, s: Storage, x: string)
    requires AllValid(storages, slots, objects) && DistinctNames(storages) && Slots.Injective(slots)
    requires FirstProblem(storages, slots, objects).None? && s in storages && x in RETENTION_OPTIONS
    ensures var repo := RepoName(slots[s.name]);
            Get(Merged(storages, slots, objects, uid).global, RepoKey(repo, x)) ==
              Get(RetentionKeys(repo, Effects(s.schedules)), RepoKey(repo, x))
  {
    OwnOption(storages, slots, objects, uid, s, x);
    RetentionOfStorage(RepoName(slots[s.name]), s, objects[s.name].s3.value, uid, x);
  }

  lemma RetentionOfStorage(repo: string, s: Storage, s3: S3, uid: string, x: string)
    requires x in RETENTION_OPTIONS
    ensures Get(StorageKeys(repo, s, s3, uid), RepoKey(repo, x)) ==
              Get(RetentionKeys(repo, Effects(s.schedules)), RepoKey(repo, x))
  {
    NotConnection(repo, s3, uid, x);
    Between(PathKeys(repo, uid), RetentionKeys(repo, Effects(s.schedules)), TransportKeys(repo, s3), RepoKey(repo, x));
  }

  lemma NotConnection(repo: string, s3: S3, uid: string, x: string)
    requires x in RETENTION_OPTIONS
    ensures RepoKey(repo, x) !in PathKeys(repo, uid) && RepoKey(repo, x) !in TransportKeys(repo, s3)
  {
    OptionKeysApart(repo, x, "path");
    OptionKeysApart(repo, x, "s3-uri-style");
    OptionKeysApart(repo, x, "storage-verify-tls");
  }

  lemma Between(p: map<string, string>, q: map<string, string>, r: map<string, string>, k: string)
    requires k !in p && k !in r
    ensures Get(p + q + r, k) == Get(q, k)
  {
  }
}
