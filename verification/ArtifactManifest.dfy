/** The artifact manifest as a stored map of claims, and the claims one script replacement changes
    (lib/artifacts/artifact_manifest.py, artifact_registration.py, artifact_activation.py). */
module ArtifactManifest {

  datatype Option<+T> = None | Some(value: T)

  datatype Variant = PostProduction | UseTts

  datatype Key =
    | AssetSheet(assetType: string, assetId: string)
    | EpisodeScriptPlan(episode: nat)
    | EpisodeScript(episode: nat)
    | EpisodeGrid(episode: nat, group: string)
    | EpisodeStoryboard(episode: nat, resource: string)
    | EpisodeVideo(episode: nat, resource: string)
    | EpisodeAudio(episode: nat, resource: string)
    | EpisodeSubtitle(episode: nat, resource: string, variant: Variant)
    | EpisodePresentation(episode: nat, resource: string, variant: Variant)
    | EpisodeFinalCut(episode: nat, timeline: string, narration: string, subtitles: string)
    | EpisodeJianyingDraft(episode: nat, timeline: string, narration: string)
    | ProjectBgm(bgm: string)

  datatype Entry = Entry(path: string, basis: string)

  type Manifest = map<Key, Entry>

  /** Claims to compare or to set; None stands for no claim. */
  type Claims = map<Key, Option<Entry>>

  datatype Observation = Present | Missing | Blocked

  // ----- The stored map -----

  function Claim(m: Manifest, key: Key): Option<Entry> {
    if key in m then Some(m[key]) else None
  }

  predicate Fits(m: Manifest, expected: Claims) {
    forall key <- expected :: Claim(m, key) == expected[key]
  }

  function Applied(m: Manifest, claims: Claims): Manifest {
    map key | key in m.Keys + claims.Keys && (key in claims ==> claims[key].Some?) ::
      if key in claims then claims[key].value else m[key]
  }

  function WithClaim(m: Manifest, key: Key, claim: Option<Entry>): (r: Manifest)
    ensures forall k :: Claim(r, k) == if k == key then claim else Claim(m, k)
  {
    if claim.None? then m - {key} else m[key := claim.value]
  }

  method FitsClaims(m: Manifest, expected: Claims) returns (fits: bool)
    ensures fits == Fits(m, expected)
  {
    var todo := expected.Keys;
    while todo != {}
      invariant todo <= expected.Keys
      invariant forall key <- expected.Keys - todo :: Claim(m, key) == expected[key]
      decreases |todo|
    {
      var key :| key in todo;
      if Claim(m, key) != expected[key] {
        return false;
      }
      todo := todo - {key};
    }
    return true;
  }

  method ApplyClaims(m: Manifest, claims: Claims) returns (entries: Manifest)
    ensures entries == Applied(m, claims)
  {
    entries := m;
    var todo := claims.Keys;
    while todo != {}
      invariant todo <= claims.Keys
      invariant forall key :: Claim(entries, key) == if key in claims.Keys - todo then claims[key] else Claim(m, key)
      decreases |todo|
    {
      var key :| key in todo;
      todo := todo - {key};
      entries := WithClaim(entries, key, claims[key]);
    }
    SameClaims(entries, Applied(m, claims));
  }

  /** No two claims own one file; `identity` is how the file system tells paths apart. */
  predicate Unshared(identity: string -> string, m: Manifest) {
    forall a <- m, b <- m | identity(m[a].path) == identity(m[b].path) :: a == b
  }

  /** Looks for two claims on one file, the way the manifest is checked before it is written. */
  method ChecksUnshared(identity: string -> string, m: Manifest) returns (unshared: bool)
    ensures unshared == Unshared(identity, m)
  {
    var owners: map<string, Key> := map[];
    var todo := m.Keys;
    while todo != {}
      invariant todo <= m.Keys
      invariant forall key <- m.Keys - todo :: identity(m[key].path) in owners && owners[identity(m[key].path)] == key
      invariant forall id <- owners :: owners[id] in m.Keys - todo && identity(m[owners[id]].path) == id
      decreases |todo|
    {
      var key :| key in todo;
      var id := identity(m[key].path);
      if id in owners {
        assert owners[id] != key;
        return false;
      }
      owners := owners[id := key];
      todo := todo - {key};
    }
    unshared := true;
  }

  class ManifestStore {
    const identity: string -> string
    /** None while there is no file; an empty manifest can be either. */
    var file: Option<Manifest>

    constructor (identity: string -> string, file: Option<Manifest>)
      ensures this.identity == identity && this.file == file
    {
      this.identity, this.file := identity, file;
    }

    function Entries(): Manifest
      reads this
    {
      if file.Some? then file.value else map[]
    }

    /** Compare-and-swap on some claims, all others preserved. None when the result would give one file
        to two claims; then, as on a mismatch, nothing is written. */
    method ReplaceEntriesIfMatches(expected: Claims, replacements: Claims) returns (changed: Option<bool>)
      modifies this`file
      ensures changed.None? <==>
              Fits(old(Entries()), expected) && !Unshared(identity, Applied(old(Entries()), replacements))
      ensures changed.None? || !Fits(old(Entries()), expected) ==> file == old(file)
      ensures changed.Some? && Fits(old(Entries()), expected) ==>
                Entries() == Applied(old(Entries()), replacements) && Unshared(identity, Entries())
      ensures changed.Some? ==> changed.value == (file != old(file))
    {
      var fits := FitsClaims(Entries(), expected);
      if !fits {
        return Some(false);
      }
      var entries := ApplyClaims(Entries(), replacements);
      var unshared := ChecksUnshared(identity, entries);
      if !unshared {
        return None;
      }
      var before := file;
      file := if entries == map[] then None else Some(entries);
      changed := Some(before != file);
    }

    /** Replaces the whole manifest, whatever it holds; every artifact must be present, and none may
        belong to two claims. */
    method ReplaceEntries(entries: Manifest, inspect: string -> Observation) returns (changed: Option<bool>)
      modifies this`file
      ensures changed.Some? <==>
              Unshared(identity, entries) && forall key <- entries :: inspect(entries[key].path) == Present
      ensures file == if changed.Some? then Some(entries) else old(file)
      ensures changed.Some? ==> changed.value == (old(file) != Some(entries))
    {
      var todo := entries.Keys;
      while todo != {}
        invariant todo <= entries.Keys
        invariant forall key <- entries.Keys - todo :: inspect(entries[key].path) == Present
        decreases |todo|
      {
        var key :| key in todo;
        if inspect(entries[key].path) != Present {
          return None;
        }
        todo := todo - {key};
      }
      var unshared := ChecksUnshared(identity, entries);
      if !unshared {
        return None;
      }
      changed := Some(file != Some(entries));
      file := Some(entries);
    }
  }

  lemma SameClaims(a: Manifest, b: Manifest)
    requires forall key :: Claim(a, key) == Claim(b, key)
    ensures a == b
  {
    forall key ensures key in a <==> key in b {
      assert Claim(a, key) == Claim(b, key);
    }
    forall key | key in a ensures a[key] == b[key] {
      assert Claim(a, key) == Claim(b, key);
    }
  }

  function Held(file: Option<Manifest>): Manifest {
    if file.Some? then file.value else map[]
  }

  function Swapped(file: Option<Manifest>, expected: Manifest, replacement: Manifest): Option<Manifest> {
    if Held(file) != expected || expected == replacement then file
    else if replacement == map[] then None else Some(replacement)
  }

  // ----- The claims of a script replacement -----

  /** The five kinds of artifact that belong to one script item. */
  predicate IsResource(key: Key) {
    key.EpisodeStoryboard? || key.EpisodeVideo? || key.EpisodeAudio? || key.EpisodeSubtitle? || key.EpisodePresentation?
  }

  predicate ResourceOf(key: Key, episode: nat) {
    IsResource(key) && key.episode == episode
  }

  function ResourceArtifacts(episode: nat, id: string): (keys: set<Key>)
    ensures forall key <- keys :: ResourceOf(key, episode) && key.resource == id
  {
    {
      EpisodeStoryboard(episode, id), EpisodeVideo(episode, id), EpisodeAudio(episode, id),
      EpisodeSubtitle(episode, id, PostProduction), EpisodeSubtitle(episode, id, UseTts),
      EpisodePresentation(episode, id, PostProduction), EpisodePresentation(episode, id, UseTts)
    }
  }

  /** Every claim an item can own is among its artifacts. */
  lemma OwnArtifact(key: Key)
    requires IsResource(key)
    ensures key in ResourceArtifacts(key.episode, key.resource)
  {
    if key.EpisodeSubtitle? || key.EpisodePresentation? {
      assert key.variant.PostProduction? || key.variant.UseTts?;
    }
  }

  /** What the caller says about the new script. */
  datatype Replacement = Replacement(
    episode: nat, path: string, remaining: set<string>, removed: set<string>, replaced: set<string>,
    basis: Option<string>)

  /** The claims found orphaned when the replacement was prepared. */
  function Orphaned(m: Manifest, r: Replacement): set<Key> {
    (set key <- m | ResourceOf(key, r.episode) && key.resource !in r.remaining) +
    (set id <- (r.removed - r.remaining) + r.replaced, key <- ResourceArtifacts(r.episode, id) :: key)
  }

  function GridClaims(m: Manifest, episode: nat): Manifest {
    map key | key in m && key.EpisodeGrid? && key.episode == episode :: m[key]
  }

  /** What preparing records for the commit. */
  datatype Prepared = Prepared(replacement: Replacement, orphaned: set<Key>, grids: Manifest, expected: Claims)

  function Guarded(m: Manifest, keys: set<Key>): Claims {
    map key | key in keys :: Claim(m, key)
  }

  method Prepare(store: ManifestStore, r: Replacement, observation: Observation) returns (p: Option<Prepared>)
    ensures p.Some? <==> observation != Blocked && r.episode >= 1 && "" !in r.remaining + r.removed + r.replaced
    ensures p.Some? ==> p.value == PreparedFrom(store.Entries(), r)
  {
    if r.episode < 1 || "" in r.remaining + r.removed + r.replaced || observation == Blocked {
      return None;
    }
    var snapshot := store.Entries();
    var orphaned := set key <- snapshot | ResourceOf(key, r.episode) && key.resource !in r.remaining;
    var ids := (r.removed - r.remaining) + r.replaced;
    var todo := ids;
    while todo != {}
      invariant todo <= ids
      invariant orphaned == (set key <- snapshot | ResourceOf(key, r.episode) && key.resource !in r.remaining) +
                            set id <- ids - todo, key <- ResourceArtifacts(r.episode, id) :: key
      decreases |todo|
    {
      var id :| id in todo;
      orphaned := orphaned + ResourceArtifacts(r.episode, id);
      todo := todo - {id};
    }
    assert ids - todo == ids;
    var grids := GridClaims(snapshot, r.episode);
    var expected := Guarded(snapshot, {EpisodeScript(r.episode)} + orphaned + grids.Keys);
    p := Some(Prepared(r, orphaned, grids, expected));
  }

  function PreparedFrom(m: Manifest, r: Replacement): Prepared {
    var orphaned, grids := Orphaned(m, r), GridClaims(m, r.episode);
    Prepared(r, orphaned, grids, Guarded(m, {EpisodeScript(r.episode)} + orphaned + grids.Keys))
  }

  /** Claims whose canonical target vanished or moved. */
  predicate Uprooted(target: Key -> Option<Entry>, key: Key, entry: Entry) {
    target(key).None? || target(key).value.path != entry.path
  }

  method UprootedClaims(claims: Manifest, target: Key -> Option<Entry>) returns (uprooted: set<Key>)
    ensures uprooted == set key <- claims | Uprooted(target, key, claims[key])
  {
    uprooted := {};
    var todo := claims.Keys;
    while todo != {}
      invariant todo <= claims.Keys
      invariant uprooted == set key <- claims.Keys - todo | Uprooted(target, key, claims[key])
      decreases |todo|
    {
      var key :| key in todo;
      if target(key).None? || target(key).value.path != claims[key].path {
        uprooted := uprooted + {key};
      }
      todo := todo - {key};
    }
    assert claims.Keys - todo == claims.Keys;
  }

  /** The script's new claim: the frozen basis, or what the planner can prove now. */
  function ScriptClaim(r: Replacement, target: Key -> Option<Entry>): Option<Entry> {
    if r.basis.Some? then Some(Entry(r.path, r.basis.value)) else target(EpisodeScript(r.episode))
  }

  predicate ScriptInPlace(r: Replacement, target: Key -> Option<Entry>, inspect: string -> Observation) {
    ScriptClaim(r, target).Some? ==> inspect(ScriptClaim(r, target).value.path) == Present
  }

  function Changes(p: Prepared, target: Key -> Option<Entry>): Claims {
    var dropped := p.orphaned + set key <- p.grids | Uprooted(target, key, p.grids[key]);
    (map key | key in dropped :: None)[EpisodeScript(p.replacement.episode) := ScriptClaim(p.replacement, target)]
  }

  datatype Outcome = Committed | AlreadyThere | TargetsDrifted | ArtifactRefused | ManifestChanged | PathShared

  /** Commits the prepared claims in one compare-and-swap. `target` is the planner's answer now;
      `steady` says whether its inputs stayed the same while it answered; `foreign` is whatever
      other writers do between reading the claims and the swap. */
  method Commit(
    store: ManifestStore, p: Prepared, target: Key -> Option<Entry>, steady: bool,
    inspect: string -> Observation, foreign: Option<Manifest> -> Option<Manifest>) returns (outcome: Outcome)
    modifies store`file
    ensures outcome in {TargetsDrifted, ArtifactRefused} ==> store.file == old(store.file)
    ensures outcome == AlreadyThere ==> store.file == old(store.file) && Fits(store.Entries(), Changes(p, target))
    ensures outcome == ManifestChanged ==> store.file == old(store.file) || store.file == foreign(old(store.file))
    ensures outcome == Committed ==>
              var found := Held(foreign(old(store.file)));
              && Fits(found, p.expected) && store.Entries() == Applied(found, Changes(p, target))
              && Unshared(store.identity, store.Entries())
    ensures outcome == PathShared ==>
              var found := Held(foreign(old(store.file)));
              && store.file == foreign(old(store.file)) && Fits(found, p.expected)
              && !Unshared(store.identity, Applied(found, Changes(p, target)))
    ensures outcome == AlreadyThere ==> Fits(store.Entries(), p.expected)
    ensures steady && Fits(old(store.Entries()), p.expected) && foreign(old(store.file)) == old(store.file) &&
            ScriptInPlace(p.replacement, target, inspect) ==>
              outcome in {Committed, AlreadyThere, PathShared}
  {
    var uprooted := {};
    if p.grids != map[] {
      uprooted := UprootedClaims(p.grids, target);
      if !steady {
        return TargetsDrifted;
      }
    }
    assert uprooted == set key <- p.grids | Uprooted(target, key, p.grids[key]);
    var script := EpisodeScript(p.replacement.episode);
    var changes := (map key | key in p.orphaned + uprooted :: None)[script := ScriptClaim(p.replacement, target)];
    if changes[script].Some? && inspect(changes[script].value.path) != Present {
      return ArtifactRefused;
    }
    var observed := Guarded(store.Entries(), p.expected.Keys + changes.Keys);
    if !Fits(store.Entries(), p.expected) {
      return ManifestChanged;
    }
    if Fits(store.Entries(), changes) {
      return AlreadyThere;
    }
    store.file := foreign(store.file);
    ghost var found := store.Entries();
    GuardedFits(old(store.Entries()), found, p.expected.Keys + changes.Keys, p.expected);
    outcome := SwapClaims(store, observed, changes);
  }

  /** The compare-and-swap of a commit: writes the changes if all claims are as they were observed. */
  method SwapClaims(store: ManifestStore, observed: Claims, changes: Claims) returns (outcome: Outcome)
    modifies store`file
    ensures outcome in {Committed, PathShared, ManifestChanged}
    ensures outcome != Committed ==> store.file == old(store.file)
    ensures outcome != ManifestChanged ==> Fits(old(store.Entries()), observed)
    ensures outcome == PathShared ==> !Unshared(store.identity, Applied(old(store.Entries()), changes))
    ensures outcome == Committed ==>
              store.Entries() == Applied(old(store.Entries()), changes) && Unshared(store.identity, store.Entries())
    ensures outcome == ManifestChanged && Fits(old(store.Entries()), observed) ==>
              Applied(old(store.Entries()), changes) == old(store.Entries())
  {
    AppliedTwice(store.Entries(), observed, changes);
    var changed := store.ReplaceEntriesIfMatches(observed, observed + changes);
    return if changed.None? then PathShared else if changed.value then Committed else ManifestChanged;
  }

  lemma GuardedFits(before: Manifest, found: Manifest, keys: set<Key>, expected: Claims)
    requires Fits(before, expected) && expected.Keys <= keys
    ensures Fits(found, Guarded(before, keys)) ==> Fits(found, expected)
  {
    if Fits(found, Guarded(before, keys)) {
      forall key | key in expected ensures Claim(found, key) == expected[key] {
        assert key in Guarded(before, keys);
      }
    }
  }

  lemma AppliedTwice(m: Manifest, observed: Claims, changes: Claims)
    ensures Fits(m, observed) ==> Applied(m, observed + changes) == Applied(m, changes)
  {
    if Fits(m, observed) {
      forall key ensures Claim(Applied(m, observed + changes), key) == Claim(Applied(m, changes), key) {
        if key in observed { assert Claim(m, key) == observed[key]; }
      }
      SameClaims(Applied(m, observed + changes), Applied(m, changes));
    }
  }

  /** Exactly the orphaned claims and the uprooted grid claims go, the script's claim is set, and
      every other claim, of this episode or another, stays. */
  lemma CommitChangesExactlyThese(
    before: Manifest, r: Replacement, found: Manifest, target: Key -> Option<Entry>, key: Key)
    requires Fits(found, PreparedFrom(before, r).expected)
    ensures var after := Applied(found, Changes(PreparedFrom(before, r), target));
      Claim(after, key) ==
      if key == EpisodeScript(r.episode) then
        if r.basis.Some? then Some(Entry(r.path, r.basis.value)) else target(key)
      else if
        && ResourceOf(key, r.episode)
        && ((key in before && key.resource !in r.remaining) || key.resource in (r.removed - r.remaining) + r.replaced)
      then None
      else if
        && key in before && key.EpisodeGrid? && key.episode == r.episode
        && (target(key).None? || target(key).value.path != before[key].path)
      then None
      else Claim(found, key)
  {
    var p := PreparedFrom(before, r);
    ClaimAfter(found, Changes(p, target), key);
    OrphanedExactly(before, r, key);
  }

  /** Whatever the commit changes is as it was when the replacement was prepared: no claim that another
      writer registered or changed since then is overwritten or dropped. */
  lemma CommitOverwritesNothingForeign(
    before: Manifest, r: Replacement, found: Manifest, target: Key -> Option<Entry>, key: Key)
    requires Fits(found, PreparedFrom(before, r).expected)
    requires Claim(Applied(found, Changes(PreparedFrom(before, r), target)), key) != Claim(found, key)
    ensures Claim(found, key) == Claim(before, key)
  {
    var p := PreparedFrom(before, r);
    ClaimAfter(found, Changes(p, target), key);
    assert key in p.expected;
  }

  lemma ClaimAfter(m: Manifest, claims: Claims, key: Key)
    ensures Claim(Applied(m, claims), key) == if key in claims then claims[key] else Claim(m, key)
  {
  }

  lemma OrphanedExactly(m: Manifest, r: Replacement, key: Key)
    ensures key in Orphaned(m, r) <==>
              && ResourceOf(key, r.episode)
              && ((key in m && key.resource !in r.remaining) || key.resource in (r.removed - r.remaining) + r.replaced)
  {
    if IsResource(key) {
      OwnArtifact(key);
    }
  }

  /** After a commit, a claim of an item that is no longer in the script is left over exactly when it
      was registered after the claims were read and its item was not named as removed. */
  lemma LeftoverClaims(
    before: Manifest, r: Replacement, found: Manifest, target: Key -> Option<Entry>, key: Key)
    requires Fits(found, PreparedFrom(before, r).expected)
    requires ResourceOf(key, r.episode) && key.resource !in r.remaining
    ensures key in Applied(found, Changes(PreparedFrom(before, r), target)) <==>
            key in found && key !in before && key.resource !in r.removed + r.replaced
  {
    CommitChangesExactlyThese(before, r, found, target, key);
  }

  /** Such a claim: the video of a segment that is gone from the script, registered after the snapshot. */
  lemma LeftoverVideo(video: Entry, target: Key -> Option<Entry>)
    ensures var r := Replacement(1, "scripts/episode_1.json", {}, {}, {}, Some("basis"));
      var key := EpisodeVideo(1, "E1S01");
      && Fits(map[key := video], PreparedFrom(map[], r).expected)
      && key in Applied(map[key := video], Changes(PreparedFrom(map[], r), target))
  {
    var r := Replacement(1, "scripts/episode_1.json", {}, {}, {}, Some("basis"));
    LeftoverClaims(map[], r, map[EpisodeVideo(1, "E1S01") := video], target, EpisodeVideo(1, "E1S01"));
  }

  /** No claim of another episode or of the project changes. */
  lemma OtherEpisodesStay(
    before: Manifest, r: Replacement, found: Manifest, target: Key -> Option<Entry>, key: Key)
    requires Fits(found, PreparedFrom(before, r).expected)
    requires key.AssetSheet? || key.ProjectBgm? || key.episode != r.episode
    ensures Claim(Applied(found, Changes(PreparedFrom(before, r), target)), key) == Claim(found, key)
  {
    CommitChangesExactlyThese(before, r, found, target, key);
  }
}
