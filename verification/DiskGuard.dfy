/**
 * The aggregate free-space guard. Reservations of all incomplete downloads are
 * folded into one record per volume with saturating 64-bit sums; the pause
 * decision must nevertheless mean what the unbounded sums mean.
 */
module DiskGuard {
  import opened Common

  const U64_MAX: nat := 0xFFFF_FFFF_FFFF_FFFF
  type U64 = x: nat | x <= U64_MAX

  type Path = string
  type VolumeKey = string

  datatype ProtectedVolume = ProtectedVolume(probePath: Path, reservedBytes: U64, freeFloorBytes: U64)
  type Volumes = map<VolumeKey, ProtectedVolume>

  function SaturatingAdd(a: U64, b: U64): U64 {
    if a + b <= U64_MAX then a + b else U64_MAX
  }

  function SaturatingSub(a: U64, b: U64): U64 {
    if b <= a then a - b else 0
  }

  function Max(a: nat, b: nat): nat {
    if a <= b then b else a
  }

  function Clamp(n: nat): U64 {
    if n <= U64_MAX then n else U64_MAX
  }

  function ReserveOnVolumeKey(volumes: Volumes, key: VolumeKey, path: Path, bytes: U64, floor: U64): Volumes {
    var volume := if key in volumes then volumes[key] else ProtectedVolume(path, 0, 0);
    volumes[key := ProtectedVolume(
      volume.probePath, SaturatingAdd(volume.reservedBytes, bytes), Max(volume.freeFloorBytes, floor))]
  }

  predicate VolumeIsInsufficient(available: Option<U64>, reserved: U64, floor: U64) {
    available.None? || available.value < SaturatingAdd(reserved, floor)
  }

  datatype Manifest = Manifest(completed: bool, fileSize: U64, durablePresentBytes: U64, categoryId: nat)

  /** What the fold reads besides the manifests: directories, floors, category paths and the path-to-volume map. */
  datatype Setup = Setup(
    profileDir: Path, transferRoot: Path, incomingDir: Path,
    configFloor: U64, transferFloor: U64, incomingFloor: U64,
    categoryPaths: map<nat, Option<Path>>,
    isBlank: Path -> bool,
    volumeKey: Path -> VolumeKey)

  function Destination(s: Setup, m: Manifest): Path {
    if m.categoryId in s.categoryPaths && s.categoryPaths[m.categoryId].Some?
      && !s.isBlank(s.categoryPaths[m.categoryId].value)
    then s.categoryPaths[m.categoryId].value
    else s.incomingDir
  }

  method ReserveOnVolume(volumes: Volumes, s: Setup, path: Path, bytes: U64, floor: U64) returns (updated: Volumes)
    ensures updated == ReserveOnVolumeKey(volumes, s.volumeKey(path), path, bytes, floor)
  {
    updated := ReserveOnVolumeKey(volumes, s.volumeKey(path), path, bytes, floor);
  }

  // ---------------------------------------------------------------- the exact meaning

  /** What is asked of one volume, without bounds. `asked` tells an empty reservation from none. */
  datatype Need = Need(asked: bool, bytes: nat, floor: nat)

  const NOTHING := Need(false, 0, 0)

  function Plus(a: Need, b: Need): Need {
    Need(a.asked || b.asked, a.bytes + b.bytes, Max(a.floor, b.floor))
  }

  function Ask(here: bool, bytes: nat, floor: nat): Need {
    if here then Need(true, bytes, floor) else NOTHING
  }

  /** One incomplete manifest asks for the rest of its pieces and for a full delivered copy. */
  function ManifestNeed(s: Setup, m: Manifest, key: VolumeKey): Need {
    if m.completed then NOTHING else
      Plus(
        Ask(s.volumeKey(s.transferRoot) == key, SaturatingSub(m.fileSize, m.durablePresentBytes), s.transferFloor),
        Ask(s.volumeKey(Destination(s, m)) == key, m.fileSize, s.incomingFloor))
  }

  function ConfigNeed(s: Setup, key: VolumeKey): Need {
    Ask(s.volumeKey(s.profileDir) == key, 0, s.configFloor)
  }

  function TotalNeed(s: Setup, manifests: seq<Manifest>, key: VolumeKey): Need {
    if manifests == [] then ConfigNeed(s, key)
    else Plus(TotalNeed(s, manifests[..|manifests| - 1], key), ManifestNeed(s, Last(manifests), key))
  }

  // What a manifest asks for, said of the setup alone.

  /** Where the finished file goes: the category's path if it has one that is not blank, else the incoming directory. */
  ghost predicate DeliveredTo(s: Setup, m: Manifest, path: Path) {
    if exists p :: HasPath(s, m, p) then HasPath(s, m, path) else path == s.incomingDir
  }

  ghost predicate HasPath(s: Setup, m: Manifest, path: Path) {
    m.categoryId in s.categoryPaths && s.categoryPaths[m.categoryId] == Some(path) && !s.isBlank(path)
  }

  /**
   * A manifest asks the volume of the transfer root for the bytes still missing
   * and that of its destination for a whole copy, both if they are the same, each
   * with its floor; it asks no other volume, and none when it is complete.
   */
  lemma ManifestNeedMeans(s: Setup, m: Manifest, path: Path, key: VolumeKey)
    requires DeliveredTo(s, m, path)
    ensures var pieces, copy := s.volumeKey(s.transferRoot) == key, s.volumeKey(path) == key;
      var missing := if m.durablePresentBytes < m.fileSize then m.fileSize - m.durablePresentBytes else 0;
      var need := ManifestNeed(s, m, key);
      if m.completed || (!pieces && !copy) then need == Need(false, 0, 0)
      else
        && need.asked
        && need.bytes == (if pieces then missing else 0) + (if copy then m.fileSize else 0)
        && (pieces ==> s.transferFloor <= need.floor)
        && (copy ==> s.incomingFloor <= need.floor)
        && ((pieces && need.floor == s.transferFloor) || (copy && need.floor == s.incomingFloor))
  {
    if m.categoryId in s.categoryPaths && s.categoryPaths[m.categoryId].Some? {
      var own := s.categoryPaths[m.categoryId].value;
      assert HasPath(s, m, own) <==> !s.isBlank(own);
    }
    assert path == Destination(s, m);
  }

  /** Needs add up: bytes as a sum, and of the floors the largest. */
  lemma TotalMeans(s: Setup, manifests: seq<Manifest>, m: Manifest, key: VolumeKey)
    ensures var before, one := TotalNeed(s, manifests, key), ManifestNeed(s, m, key);
      var after := TotalNeed(s, manifests + [m], key);
      && after.bytes == before.bytes + one.bytes
      && (after.asked <==> before.asked || one.asked)
      && before.floor <= after.floor && one.floor <= after.floor
      && (after.floor == before.floor || after.floor == one.floor)
    ensures TotalNeed(s, [], key) ==
      if s.volumeKey(s.profileDir) == key then Need(true, 0, s.configFloor) else Need(false, 0, 0)
  {
    assert (manifests + [m])[..|manifests|] == manifests;
  }

  /** The volume table says about `key` what `need` says, up to saturation. */
  ghost predicate Records(volumes: Volumes, key: VolumeKey, need: Need) {
    && (key in volumes <==> need.asked)
    && (key in volumes ==> volumes[key].reservedBytes == Clamp(need.bytes) && volumes[key].freeFloorBytes == need.floor)
    && (!need.asked ==> need == NOTHING)
  }

  lemma ReserveRecords(volumes: Volumes, at: VolumeKey, path: Path, bytes: U64, floor: U64, key: VolumeKey, need: Need)
    requires Records(volumes, key, need)
    ensures Records(ReserveOnVolumeKey(volumes, at, path, bytes, floor), key, Plus(need, Ask(at == key, bytes, floor)))
  {
  }

  function ReserveManifest(volumes: Volumes, s: Setup, m: Manifest): Volumes {
    if m.completed then volumes else
      var one := ReserveOnVolumeKey(
        volumes, s.volumeKey(s.transferRoot), s.transferRoot, SaturatingSub(m.fileSize, m.durablePresentBytes),
        s.transferFloor);
      ReserveOnVolumeKey(one, s.volumeKey(Destination(s, m)), Destination(s, m), m.fileSize, s.incomingFloor)
  }

  lemma PlusGroups(a: Need, b: Need, c: Need)
    ensures Plus(Plus(a, b), c) == Plus(a, Plus(b, c))
  {
  }

  lemma TwoReserved(
    volumes: Volumes, at: VolumeKey, path: Path, bytes: U64, floor: U64,
    at': VolumeKey, path': Path, bytes': U64, floor': U64, key: VolumeKey, need: Need)
    requires Records(volumes, key, need)
    ensures Records(
      ReserveOnVolumeKey(ReserveOnVolumeKey(volumes, at, path, bytes, floor), at', path', bytes', floor'),
      key, Plus(need, Plus(Ask(at == key, bytes, floor), Ask(at' == key, bytes', floor'))))
  {
    ReserveRecords(volumes, at, path, bytes, floor, key, need);
    var one := ReserveOnVolumeKey(volumes, at, path, bytes, floor);
    ReserveRecords(one, at', path', bytes', floor', key, Plus(need, Ask(at == key, bytes, floor)));
    PlusGroups(need, Ask(at == key, bytes, floor), Ask(at' == key, bytes', floor'));
  }

  lemma ManifestRecords(volumes: Volumes, s: Setup, m: Manifest, key: VolumeKey, need: Need)
    requires Records(volumes, key, need)
    ensures Records(ReserveManifest(volumes, s, m), key, Plus(need, ManifestNeed(s, m, key)))
  {
    if !m.completed {
      TwoReserved(
        volumes,
        s.volumeKey(s.transferRoot), s.transferRoot, SaturatingSub(m.fileSize, m.durablePresentBytes), s.transferFloor,
        s.volumeKey(Destination(s, m)), Destination(s, m), m.fileSize, s.incomingFloor,
        key, need);
    }
  }

  method ReserveIncompleteManifest(volumes: Volumes, s: Setup, m: Manifest) returns (updated: Volumes)
    ensures updated == ReserveManifest(volumes, s, m)
  {
    updated := volumes;
    if m.completed {
      return;
    }
    var remaining := SaturatingSub(m.fileSize, m.durablePresentBytes);
    updated := ReserveOnVolume(updated, s, s.transferRoot, remaining, s.transferFloor);
    updated := ReserveOnVolume(updated, s, Destination(s, m), m.fileSize, s.incomingFloor);
  }

  method ProtectedVolumes(s: Setup, manifests: seq<Manifest>) returns (volumes: Volumes)
    ensures forall key :: Records(volumes, key, TotalNeed(s, manifests, key))
  {
    volumes := ReserveOnVolume(map[], s, s.profileDir, 0, s.configFloor);
    for k := 0 to |manifests|
      invariant forall key :: Records(volumes, key, TotalNeed(s, manifests[..k], key))
    {
      var reserved := ReserveIncompleteManifest(volumes, s, manifests[k]);
      ghost var done := manifests[..k + 1];
      assert done[..k] == manifests[..k];
      forall key ensures Records(reserved, key, TotalNeed(s, done, key)) {
        ManifestRecords(volumes, s, manifests[k], key, TotalNeed(s, manifests[..k], key));
      }
      volumes := reserved;
    }
    assert manifests[..|manifests|] == manifests;
  }

  // ---------------------------------------------------------------- order, exactness, monotonicity

  lemma PlusLaws(a: Need, b: Need, c: Need)
    ensures Plus(Plus(a, b), c) == Plus(Plus(a, c), b)
  {
  }

  function Without(manifests: seq<Manifest>, i: nat): seq<Manifest>
    requires i < |manifests|
  {
    manifests[..i] + manifests[i + 1..]
  }

  lemma {:induction false} TakeOut(s: Setup, manifests: seq<Manifest>, i: nat, key: VolumeKey)
    requires i < |manifests|
    ensures TotalNeed(s, manifests, key) ==
      Plus(TotalNeed(s, Without(manifests, i), key), ManifestNeed(s, manifests[i], key))
  {
    var n := |manifests| - 1;
    var init, last := manifests[..n], manifests[n];
    if i == n {
      assert Without(manifests, i) == init;
    } else {
      TakeOut(s, init, i, key);
      var rest := Without(manifests, i);
      assert rest[..n - 1] == Without(init, i) && rest[n - 1] == last;
      PlusLaws(TotalNeed(s, Without(init, i), key), ManifestNeed(s, manifests[i], key), ManifestNeed(s, last, key));
    }
  }

  /** What a volume is asked for does not depend on the order of the manifests. */
  lemma {:induction false} OrderIrrelevant(s: Setup, a: seq<Manifest>, b: seq<Manifest>, key: VolumeKey)
    requires multiset(a) == multiset(b)
    ensures TotalNeed(s, a, key) == TotalNeed(s, b, key)
    decreases |a|
  {
    assert |a| == |multiset(a)| == |multiset(b)| == |b|;
    if a != [] {
      var n := |a| - 1;
      var m := a[n];
      assert a == a[..n] + [m];
      assert m in multiset(b);
      var i :| 0 <= i < |b| && b[i] == m;
      assert b == b[..i] + [m] + b[i + 1..];
      assert multiset(Without(b, i)) == multiset(b) - multiset{m} == multiset(a[..n]);
      OrderIrrelevant(s, a[..n], Without(b, i), key);
      TakeOut(s, b, i, key);
    }
  }

  /** Two scans of the same manifests in different orders build tables that decide alike. */
  lemma TablesAgree(s: Setup, a: seq<Manifest>, b: seq<Manifest>, va: Volumes, vb: Volumes, key: VolumeKey)
    requires multiset(a) == multiset(b)
    requires Records(va, key, TotalNeed(s, a, key)) && Records(vb, key, TotalNeed(s, b, key))
    ensures key in va <==> key in vb
    ensures key in va ==>
      va[key].reservedBytes == vb[key].reservedBytes && va[key].freeFloorBytes == vb[key].freeFloorBytes
  {
    OrderIrrelevant(s, a, b, key);
  }

  /**
   * Despite saturation the decision is the unbounded one, exactly unless the
   * volume reports 2^64-1 free bytes while more than that is needed.
   */
  lemma DecisionExact(available: U64, need: Need)
    requires need.floor <= U64_MAX
    ensures (VolumeIsInsufficient(Some(available), Clamp(need.bytes), need.floor) <==>
      available < need.bytes + need.floor)
      <==> available < U64_MAX || need.bytes + need.floor <= U64_MAX
  {
  }

  /** The guard's answer for a volume table and the free space each volume reports. */
  ghost predicate ShouldPause(volumes: Volumes, free: VolumeKey -> Option<U64>) {
    exists key :: key in volumes
      && VolumeIsInsufficient(free(key), volumes[key].reservedBytes, volumes[key].freeFloorBytes)
  }

  ghost predicate NeedPauses(need: Need, available: Option<U64>) {
    need.asked && (available.None? || available.value < need.bytes + need.floor)
  }

  /** Free space is unknown, below 2^64-1, or the need can be written in 64 bits. */
  ghost predicate Representable(need: Need, available: Option<U64>) {
    available.None? || available.value < U64_MAX || need.bytes + need.floor <= U64_MAX
  }

  /** The volume reports 2^64-1 free bytes and needs more. */
  ghost predicate Overflows(need: Need, available: Option<U64>) {
    available == Some(U64_MAX) && U64_MAX < need.bytes + need.floor
  }

  /** Some volume's unbounded need exceeds its free space, or that is unknown. */
  ghost predicate Short(s: Setup, manifests: seq<Manifest>, free: VolumeKey -> Option<U64>) {
    exists key :: NeedPauses(TotalNeed(s, manifests, key), free(key))
  }

  /** So it is for some volume whose shortage 64 bits can show. */
  ghost predicate VisiblyShort(s: Setup, manifests: seq<Manifest>, free: VolumeKey -> Option<U64>) {
    exists key ::
      NeedPauses(TotalNeed(s, manifests, key), free(key)) && Representable(TotalNeed(s, manifests, key), free(key))
  }

  lemma {:induction false} FloorBounded(s: Setup, manifests: seq<Manifest>, key: VolumeKey)
    ensures TotalNeed(s, manifests, key).floor <= U64_MAX
  {
    if manifests != [] {
      FloorBounded(s, manifests[..|manifests| - 1], key);
    }
  }

  lemma VolumeExact(volumes: Volumes, key: VolumeKey, need: Need, available: Option<U64>)
    requires Records(volumes, key, need) && need.floor <= U64_MAX
    ensures key in volumes && VolumeIsInsufficient(available, volumes[key].reservedBytes, volumes[key].freeFloorBytes)
      <==> NeedPauses(need, available) && Representable(need, available)
  {
    if available.Some? {
      DecisionExact(available.value, need);
    }
  }

  /**
   * The whole guard, on all inputs: it pauses exactly when a shortage is visible.
   * So it meets its purpose, to pause whenever there is a shortage, exactly unless
   * every volume that is short reports 2^64-1 free bytes and needs more.
   */
  lemma PauseExact(s: Setup, manifests: seq<Manifest>, volumes: Volumes, free: VolumeKey -> Option<U64>)
    requires forall key :: Records(volumes, key, TotalNeed(s, manifests, key))
    ensures ShouldPause(volumes, free) <==> VisiblyShort(s, manifests, free)
    ensures ShouldPause(volumes, free) ==> Short(s, manifests, free)
    ensures (Short(s, manifests, free) ==> ShouldPause(volumes, free)) <==>
      !(Short(s, manifests, free) &&
        forall key :: NeedPauses(TotalNeed(s, manifests, key), free(key)) ==>
          Overflows(TotalNeed(s, manifests, key), free(key)))
  {
    forall key ensures key in volumes
      && VolumeIsInsufficient(free(key), volumes[key].reservedBytes, volumes[key].freeFloorBytes)
      <==> NeedPauses(TotalNeed(s, manifests, key), free(key)) && Representable(TotalNeed(s, manifests, key), free(key))
    {
      FloorBounded(s, manifests, key);
      VolumeExact(volumes, key, TotalNeed(s, manifests, key), free(key));
    }
  }

  lemma OneNeed(s: Setup, m: Manifest, key: VolumeKey)
    ensures TotalNeed(s, [m], key) == Plus(ConfigNeed(s, key), ManifestNeed(s, m, key))
  {
    assert [m][..0] == [];
  }

  /** One file of 2^64-1 bytes, asked of one volume alone: that volume needs more than 64 bits can say. */
  lemma HugeNeed(s: Setup, m: Manifest, at: VolumeKey, key: VolumeKey)
    requires s.volumeKey(s.profileDir) == s.volumeKey(s.transferRoot) == s.volumeKey(Destination(s, m)) == at
    requires m == Manifest(false, U64_MAX, 0, m.categoryId)
    ensures TotalNeed(s, [m], key).asked <==> key == at
    ensures TotalNeed(s, [m], at).bytes > U64_MAX
  {
    OneNeed(s, m, key);
    OneNeed(s, m, at);
  }

  /** With 2^64-1 free bytes reported there, the volume is short, and the guard does not pause. */
  lemma PauseCanMiss(s: Setup, m: Manifest, at: VolumeKey, volumes: Volumes, free: VolumeKey -> Option<U64>)
    requires s.volumeKey(s.profileDir) == s.volumeKey(s.transferRoot) == s.volumeKey(Destination(s, m)) == at
    requires m == Manifest(false, U64_MAX, 0, m.categoryId) && free(at) == Some(U64_MAX)
    requires forall key :: Records(volumes, key, TotalNeed(s, [m], key))
    ensures Short(s, [m], free) && !ShouldPause(volumes, free)
  {
    var one := [m];
    HugeNeed(s, m, at, at);
    assert NeedPauses(TotalNeed(s, one, at), free(at));
    PauseExact(s, one, volumes, free);
    if VisiblyShort(s, one, free) {
      var key :| NeedPauses(TotalNeed(s, one, key), free(key)) && Representable(TotalNeed(s, one, key), free(key));
      HugeNeed(s, m, at, key);
      assert false;
    }
  }

  /** One more manifest never turns an insufficient volume into a sufficient one, saturated or not. */
  lemma MoreNeverHelps(
    s: Setup, manifests: seq<Manifest>, m: Manifest, before: Volumes, after: Volumes, free: VolumeKey -> Option<U64>)
    requires forall key :: Records(before, key, TotalNeed(s, manifests, key))
    requires forall key :: Records(after, key, TotalNeed(s, manifests + [m], key))
    requires ShouldPause(before, free)
    ensures ShouldPause(after, free)
  {
    var key :| key in before && VolumeIsInsufficient(free(key), before[key].reservedBytes, before[key].freeFloorBytes);
    assert (manifests + [m])[..|manifests|] == manifests;
    assert Records(before, key, TotalNeed(s, manifests, key));
    assert Records(after, key, TotalNeed(s, manifests + [m], key));
    assert key in after && VolumeIsInsufficient(free(key), after[key].reservedBytes, after[key].freeFloorBytes);
  }
}
