/** Resolving a path inside a container to the volume, the bind mount or the container root that it is on. */
module PathResolution {
  import opened Containers
  import opened Paths
  import opened JoinedPaths

  datatype NamedVolume = NamedVolume(name: Name, dest: string)

  datatype Mount = Mount(kind: string, source: string, dest: string)

  /** What a path is resolved against. `mountPoints` has the volumes of the state; one without a mount point is
      None or "". */
  datatype Place = Place(volumes: seq<NamedVolume>, mounts: seq<Mount>, mountPoints: map<Name, Option<string>>)

  /** Where a path is: the root that it is on and, on that root, the path on the host. */
  datatype Resolution =
    | OnVolume(volume: nat, root: string, path: string)
    | OnMount(mount: nat, root: string, path: string)
    | OnContainer(root: string, path: string)
    | VolumeFailed(volume: nat)
    | MountFailed(mount: nat)

  /** Joins a path to a root on the host without leaving the root; it follows links there, and may fail. */
  type SecureJoin = (string, string) -> Option<string>

  /** The first hit, from the `i`-th on. */
  function FindFirst<T>(s: seq<T>, hit: T -> bool, i: nat): (r: Option<nat>)
    requires i <= |s|
    decreases |s| - i
  {
    if i == |s| then None else if hit(s[i]) then Some(i) else FindFirst(s, hit, i + 1)
  }

  lemma {:induction false} FoundFirst<T>(s: seq<T>, hit: T -> bool, i: nat)
    requires i <= |s|
    ensures var r := FindFirst(s, hit, i);
            && (r.Some? ==> i <= r.value < |s| && hit(s[r.value]))
            && forall j {:trigger s[j]} :: i <= j < (if r.Some? then r.value else |s|) ==> !hit(s[j])
    decreases |s| - i
  {
    if i < |s| && !hit(s[i]) { FoundFirst(s, hit, i + 1); }
  }

  /** The first volume mounted at the path. */
  function FindVolume(volumes: seq<NamedVolume>, path: string): Option<nat> {
    FindFirst(volumes, (v: NamedVolume) => Clean(path) == Clean(v.dest), 0)
  }

  /** The first bind mount at the path. */
  function FindBindMount(mounts: seq<Mount>, path: string): Option<nat> {
    FindFirst(mounts, (m: Mount) => m.kind == "bind" && Clean(path) == Clean(m.dest), 0)
  }

  function PathAbs(workingDir: string, path: string): string {
    if IsAbs(path) then path else Join(Join("/", workingDir), path)
  }

  /** The path inside the container, cleaned. */
  function NormalizedPath(mountPoint: string, workingDir: string, path: string): string {
    Join("/", TrimPrefix(PathAbs(workingDir, path), mountPoint))
  }

  // ---------------------------------------------------------------- the path in components

  /** A relative path is walked from the working directory, and that from the root; an absolute path keeps its own
      components. */
  lemma PathAbsComponents(workingDir: string, path: string)
    ensures IsAbs(PathAbs(workingDir, path))
    ensures Components(PathAbs(workingDir, path)) ==
              if IsAbs(path) then Components(path) else Normalize(true, Split(workingDir) + Split(path))
  {
    if !IsAbs(path) {
      var dir := Join("/", workingDir);
      ComponentsFromRoot(workingDir);
      ComponentsOfJoin(dir, path);
      NormalizeTail(Split(dir), Split(workingDir), Split(path));
    }
  }

  lemma PathAbsIsClean(workingDir: string, path: string)
    requires !IsAbs(path)
    ensures PathAbs(workingDir, path) == Render(true, Components(PathAbs(workingDir, path)))
  {
    var dir := Join("/", workingDir);
    ComponentsFromRoot(workingDir);
    JoinIsClean(dir, path);
  }

  lemma JoinIsClean(s: string, t: string)
    requires IsAbs(s)
    ensures Join(s, t) == Render(true, Components(Join(s, t)))
  {
    var u := if t == "" then s else s + "/" + t;
    assert IsAbs(u) && Join(s, t) == Clean(u);
    ComponentsOfClean(u);
  }

  /** Under the working directory `a`, the relative path `b` is the path of both. */
  lemma PathUnderWorkingDir(a: seq<string>, b: seq<string>)
    requires AllProper(a) && AllProper(b)
    ensures PathAbs(Render(true, a), Render(false, b)) == Render(true, a + b)
  {
    var dir, path := Render(true, a), Render(false, b);
    if b != [] { SplitRelative(b); }
    ComponentsOfRender(a);
    NormalizeKeepsProper(a);
    NormalizeKeepsProper(a + b);
    PathAbsComponents(dir, path);
    NormalizeTail(Split(dir), a, Split(path));
    if b == [] {
      SplitOne(".");
      NormalizeLast(true, a, ".");
      assert a + b == a;
    }
    PathAbsIsClean(dir, path);
  }

  /** The path that a user gives, as `b` from the root or from the working directory `a`. */
  function Given(a: seq<string>, b: seq<string>, rooted: bool): seq<string> {
    if rooted then b else a + b
  }

  /** From mount point, working directory and path to the components inside the container: those of the path, unless
      it starts with the characters of the mount point. Then these are cut off, be it within a component. */
  lemma PathOfInputs(m: seq<string>, a: seq<string>, b: seq<string>, rooted: bool)
    requires AllProper(m) && AllProper(a) && AllProper(b)
    ensures var left := Components(NormalizedPath(Render(true, m), Render(true, a), Render(rooted, b)));
            && (m <= Given(a, b, rooted) ==> left == Given(a, b, rooted)[|m|..])
            && (!StartsLike(Given(a, b, rooted), m) ==> left == Given(a, b, rooted))
            && (m != [] && StartsLike(Given(a, b, rooted), m) ==>
                  left == Normalize(true, [CutPart(Given(a, b, rooted), m)] + Given(a, b, rooted)[|m|..]))
    ensures Join(Render(true, m), PathAbs(Render(true, a), Render(rooted, b))) == Render(true, m + Given(a, b, rooted))
  {
    var parts := Given(a, b, rooted);
    if rooted { ComponentsOfRender(b); } else { PathUnderWorkingDir(a, b); }
    assert PathAbs(Render(true, a), Render(rooted, b)) == Render(true, parts);
    TrimmedComponents(parts, m);
    JoinOfRenders(m, parts);
  }

  lemma JoinOfRenders(a: seq<string>, b: seq<string>)
    requires AllProper(a) && AllProper(b)
    ensures Join(Render(true, a), Render(true, b)) == Render(true, a + b)
  {
    var s, t := Render(true, a), Render(true, b);
    ComponentsOfRender(a);
    ComponentsOfRender(b);
    ComponentsOfJoin(s, t);
    NormalizeKeepsProper(a);
    NormalizeTail(Split(s), a, Split(t));
    NormalizeOfRender(a, b);
    JoinIsClean(s, t);
  }

  lemma SplitOfRender(parts: seq<string>)
    requires AllProper(parts)
    ensures Split(Render(true, parts)) == [""] + if parts == [] then [""] else parts
  {
    if parts == [] { SplitRoot(); } else { SplitSlashed(parts); }
  }

  lemma NormalizeOfRender(a: seq<string>, b: seq<string>)
    requires AllProper(a) && AllProper(b)
    ensures Normalize(true, a + Split(Render(true, b))) == a + b
  {
    var rest := if b == [] then [""] else b;
    SplitOfRender(b);
    assert a + ([""] + rest) == a + [""] + rest;
    SkipEmpty(a, rest);
    NormalizeKeepsProper(a + b);
    if b == [] {
      NormalizeLast(true, a, "");
      assert a + b == a;
    }
  }

  lemma SkipEmpty(a: seq<string>, rest: seq<string>)
    ensures Normalize(true, a + [""] + rest) == Normalize(true, a + rest)
  {
    NormalizeLast(true, a, "");
    NormalizeTail(a + [""], a, rest);
  }

  // ---------------------------------------------------------------- what covers a path

  /** The destination is the path of the components given, or an ancestor of it. */
  ghost predicate Covers(dest: string, parts: seq<string>) {
    IsAbs(dest) && Components(dest) <= parts
  }

  ghost predicate VolumeCovers(place: Place, i: nat, parts: seq<string>) {
    i < |place.volumes| && Covers(place.volumes[i].dest, parts)
  }

  ghost predicate MountCovers(place: Place, i: nat, parts: seq<string>) {
    i < |place.mounts| && place.mounts[i].kind == "bind" && Covers(place.mounts[i].dest, parts)
  }

  function VolumeDepth(place: Place, i: nat): nat
    requires i < |place.volumes|
  {
    |Components(place.volumes[i].dest)|
  }

  function MountDepth(place: Place, i: nat): nat
    requires i < |place.mounts|
  {
    |Components(place.mounts[i].dest)|
  }

  /** Nothing that covers the path is deeper than `k`. */
  ghost predicate NoneDeeper(place: Place, parts: seq<string>, k: int) {
    && (forall i: nat {:trigger VolumeCovers(place, i, parts)} ::
          VolumeCovers(place, i, parts) ==> VolumeDepth(place, i) <= k)
    && (forall i: nat {:trigger MountCovers(place, i, parts)} ::
          MountCovers(place, i, parts) ==> MountDepth(place, i) <= k)
  }

  /** The volume `i` is the deepest that covers the path, and the first among those as deep. */
  ghost predicate DeepestVolume(place: Place, parts: seq<string>, i: nat) {
    && VolumeCovers(place, i, parts) && NoneDeeper(place, parts, VolumeDepth(place, i))
    && forall j: nat {:trigger VolumeCovers(place, j, parts)} ::
         j < i && VolumeCovers(place, j, parts) ==> VolumeDepth(place, j) < VolumeDepth(place, i)
  }

  /** The bind mount `i` is the deepest that covers the path; no volume is as deep, and no mount before it. */
  ghost predicate DeepestMount(place: Place, parts: seq<string>, i: nat) {
    && MountCovers(place, i, parts) && NoneDeeper(place, parts, MountDepth(place, i))
    && (forall j: nat {:trigger VolumeCovers(place, j, parts)} ::
          VolumeCovers(place, j, parts) ==> VolumeDepth(place, j) < MountDepth(place, i))
    && (forall j: nat {:trigger MountCovers(place, j, parts)} ::
          j < i && MountCovers(place, j, parts) ==> MountDepth(place, j) < MountDepth(place, i))
  }

  // ---------------------------------------------------------------- the searches

  ghost predicate VolumeIsAt(place: Place, i: nat, parts: seq<string>) {
    i < |place.volumes| && IsAbs(place.volumes[i].dest) && Components(place.volumes[i].dest) == parts
  }

  ghost predicate MountIsAt(place: Place, i: nat, parts: seq<string>) {
    && i < |place.mounts| && place.mounts[i].kind == "bind"
    && IsAbs(place.mounts[i].dest) && Components(place.mounts[i].dest) == parts
  }

  /** The volume found is at the path of `parts`, and none before it is. */
  lemma FoundVolume(place: Place, parts: seq<string>)
    requires AllProper(parts)
    ensures var r := FindVolume(place.volumes, Render(true, parts));
            && (r.Some? ==> r.value < |place.volumes| && VolumeIsAt(place, r.value, parts))
            && forall j: nat {:trigger VolumeIsAt(place, j, parts)} ::
                 j < (if r.Some? then r.value else |place.volumes|) ==> !VolumeIsAt(place, j, parts)
  {
    var path := Render(true, parts);
    var hit := (v: NamedVolume) => Clean(path) == Clean(v.dest);
    FoundFirst(place.volumes, hit, 0);
    forall j: nat | j < |place.volumes| ensures hit(place.volumes[j]) <==> VolumeIsAt(place, j, parts) {
      SamePath(place.volumes[j].dest, parts);
    }
    assert FindVolume(place.volumes, path) == FindFirst(place.volumes, hit, 0);
  }

  lemma FoundMount(place: Place, parts: seq<string>)
    requires AllProper(parts)
    ensures var r := FindBindMount(place.mounts, Render(true, parts));
            && (r.Some? ==> r.value < |place.mounts| && MountIsAt(place, r.value, parts))
            && forall j: nat {:trigger MountIsAt(place, j, parts)} ::
                 j < (if r.Some? then r.value else |place.mounts|) ==> !MountIsAt(place, j, parts)
  {
    var path := Render(true, parts);
    var hit := (m: Mount) => m.kind == "bind" && Clean(path) == Clean(m.dest);
    FoundFirst(place.mounts, hit, 0);
    forall j: nat | j < |place.mounts| ensures hit(place.mounts[j]) <==> MountIsAt(place, j, parts) {
      SamePath(place.mounts[j].dest, parts);
    }
    assert FindBindMount(place.mounts, path) == FindFirst(place.mounts, hit, 0);
  }

  /** What covers the path at depth `k` at most is at the ancestor of that depth, or less deep. */
  lemma VolumeAtDepth(place: Place, parts: seq<string>, k: nat, i: nat)
    requires k <= |parts| && VolumeCovers(place, i, parts)
    ensures VolumeDepth(place, i) == k <==> VolumeIsAt(place, i, parts[..k])
  {
  }

  lemma MountAtDepth(place: Place, parts: seq<string>, k: nat, i: nat)
    requires k <= |parts| && MountCovers(place, i, parts)
    ensures MountDepth(place, i) == k <==> MountIsAt(place, i, parts[..k])
  {
  }

  lemma VolumeHereIsDeepest(place: Place, parts: seq<string>, k: nat, i: nat)
    requires k <= |parts| && NoneDeeper(place, parts, k) && VolumeIsAt(place, i, parts[..k])
    requires forall j: nat {:trigger VolumeIsAt(place, j, parts[..k])} :: j < i ==> !VolumeIsAt(place, j, parts[..k])
    ensures DeepestVolume(place, parts, i)
  {
    assert VolumeCovers(place, i, parts);
    forall j: nat | j < i && VolumeCovers(place, j, parts) ensures VolumeDepth(place, j) < VolumeDepth(place, i) {
      VolumeAtDepth(place, parts, k, j);
      assert !VolumeIsAt(place, j, parts[..k]);
    }
  }

  lemma MountHereIsDeepest(place: Place, parts: seq<string>, k: nat, i: nat)
    requires k <= |parts| && NoneDeeper(place, parts, k) && MountIsAt(place, i, parts[..k])
    requires forall j: nat {:trigger VolumeIsAt(place, j, parts[..k])} :: !VolumeIsAt(place, j, parts[..k])
    requires forall j: nat {:trigger MountIsAt(place, j, parts[..k])} :: j < i ==> !MountIsAt(place, j, parts[..k])
    ensures DeepestMount(place, parts, i)
  {
    assert MountCovers(place, i, parts);
    forall j: nat | VolumeCovers(place, j, parts) ensures VolumeDepth(place, j) < MountDepth(place, i) {
      VolumeAtDepth(place, parts, k, j);
      assert !VolumeIsAt(place, j, parts[..k]);
    }
    forall j: nat | j < i && MountCovers(place, j, parts) ensures MountDepth(place, j) < MountDepth(place, i) {
      MountAtDepth(place, parts, k, j);
      assert !MountIsAt(place, j, parts[..k]);
    }
  }

  lemma NothingHere(place: Place, parts: seq<string>, k: nat)
    requires k <= |parts| && NoneDeeper(place, parts, k)
    requires forall j: nat {:trigger VolumeIsAt(place, j, parts[..k])} :: !VolumeIsAt(place, j, parts[..k])
    requires forall j: nat {:trigger MountIsAt(place, j, parts[..k])} :: !MountIsAt(place, j, parts[..k])
    ensures NoneDeeper(place, parts, k - 1)
  {
    forall i: nat | VolumeCovers(place, i, parts) ensures VolumeDepth(place, i) <= k - 1 {
      VolumeAtDepth(place, parts, k, i);
      assert !VolumeIsAt(place, i, parts[..k]);
    }
    forall i: nat | MountCovers(place, i, parts) ensures MountDepth(place, i) <= k - 1 {
      MountAtDepth(place, parts, k, i);
      assert !MountIsAt(place, i, parts[..k]);
    }
  }

  // ---------------------------------------------------------------- resolution

  /** What is left of the path below a destination that covers it. */
  ghost function Rest(dest: string, parts: seq<string>): (rest: string)
    requires Covers(dest, parts)
    ensures Render(true, Components(dest)) + rest == Render(true, parts)
  {
    var k := |Components(dest)|;
    assert parts[..k] == Components(dest);
    AncestorIsPrefix(parts, k);
    Render(true, parts)[|Render(true, Components(dest))|..]
  }

  /** The mount point of a volume, if it has one. */
  function MountPoint(place: Place, i: nat): Option<string>
    requires i < |place.volumes|
  {
    var name := place.volumes[i].name;
    if name !in place.mountPoints || place.mountPoints[name] == Some("") then None else place.mountPoints[name]
  }

  /** What the resolution of the path with the components `parts` has to be. */
  ghost predicate ResolvesTo(place: Place, join: SecureJoin, parts: seq<string>, r: Resolution) {
    match r
    case OnVolume(i, root, path) =>
      && DeepestVolume(place, parts, i) && place.volumes[i].name in place.mountPoints
      && place.mountPoints[place.volumes[i].name] == Some(root) && root != ""
      && join(root, Rest(place.volumes[i].dest, parts)) == Some(path)
    case VolumeFailed(i) =>
      && DeepestVolume(place, parts, i)
      && (place.volumes[i].name in place.mountPoints ==>
            var root := place.mountPoints[place.volumes[i].name];
            root.None? || root.value == "" || join(root.value, Rest(place.volumes[i].dest, parts)).None?)
    case OnMount(i, root, path) =>
      DeepestMount(place, parts, i) && root == place.mounts[i].source && join(root, Rest(place.mounts[i].dest, parts)) == Some(path)
    case MountFailed(i) =>
      DeepestMount(place, parts, i) && join(place.mounts[i].source, Rest(place.mounts[i].dest, parts)).None?
    case OnContainer(_, _) => NoneDeeper(place, parts, -1)
  }

  lemma AncestorIsPrefix(parts: seq<string>, k: nat)
    requires k <= |parts|
    ensures Render(true, parts[..k]) <= Render(true, parts)
  {
    assert parts == parts[..k] + parts[k..];
    SlashedConcat(parts[..k], parts[k..]);
    if k == 0 && parts != [] { SlashedIsAbs(parts); }
  }

  lemma NormalizedPathIsRooted(mountPoint: string, workingDir: string, path: string)
    ensures var s := NormalizedPath(mountPoint, workingDir, path);
            IsAbs(s) && AllProper(Components(s)) && Render(true, Components(s)) == s
  {
    var rest := TrimPrefix(PathAbs(workingDir, path), mountPoint);
    var joined := if rest == "" then "/" else "/" + "/" + rest;
    assert NormalizedPath(mountPoint, workingDir, path) == Clean(joined);
    ComponentsAreProper(joined);
    ComponentsOfRender(Components(joined));
  }

  lemma TrimIsRest(parts: seq<string>, k: nat, dest: string)
    requires k <= |parts| && IsAbs(dest) && Components(dest) == parts[..k]
    ensures Covers(dest, parts) && TrimPrefix(Render(true, parts), Render(true, parts[..k])) == Rest(dest, parts)
  {
    AncestorIsPrefix(parts, k);
  }

  /** Looks for a volume, then for a bind mount, at one ancestor of the path. */
  method FindHere(place: Place, join: SecureJoin, path: string, searchPath: string, ghost parts: seq<string>, ghost k: nat)
    returns (r: Option<Resolution>)
    requires AllProper(parts) && path == Render(true, parts)
    requires k <= |parts| && searchPath == Render(true, parts[..k]) && NoneDeeper(place, parts, k)
    ensures r.Some? ==> !r.value.OnContainer? && ResolvesTo(place, join, parts, r.value)
    ensures r.None? ==> NoneDeeper(place, parts, k - 1)
  {
    FoundVolume(place, parts[..k]);
    var volume := FindVolume(place.volumes, searchPath);
    if volume.Some? {
      var i := volume.value;
      VolumeHereIsDeepest(place, parts, k, i);
      TrimIsRest(parts, k, place.volumes[i].dest);
      var mountPoint := MountPoint(place, i);
      if mountPoint.None? {
        return Some(VolumeFailed(i));
      }
      var joined := join(mountPoint.value, TrimPrefix(path, searchPath));
      return Some(if joined.None? then VolumeFailed(i) else OnVolume(i, mountPoint.value, joined.value));
    }
    FoundMount(place, parts[..k]);
    var mount := FindBindMount(place.mounts, searchPath);
    if mount.Some? {
      var i := mount.value;
      MountHereIsDeepest(place, parts, k, i);
      TrimIsRest(parts, k, place.mounts[i].dest);
      var joined := join(place.mounts[i].source, TrimPrefix(path, searchPath));
      return Some(if joined.None? then MountFailed(i) else OnMount(i, place.mounts[i].source, joined.value));
    }
    NothingHere(place, parts, k);
    return None;
  }

  /** Walks from the path towards the root, and stops at the first volume or bind mount. */
  method ResolvePath(place: Place, join: SecureJoin, mountPoint: string, workingDir: string, containerPath: string)
    returns (r: Resolution)
    ensures ResolvesTo(place, join, Components(NormalizedPath(mountPoint, workingDir, containerPath)), r)
    ensures r.OnContainer? ==> r.root == mountPoint && r.path == Join(mountPoint, PathAbs(workingDir, containerPath))
  {
    var path := PathAbs(workingDir, containerPath);
    var resolved := Join(mountPoint, path);
    path := TrimPrefix(path, mountPoint);
    path := Join("/", path);
    NormalizedPathIsRooted(mountPoint, workingDir, containerPath);
    ghost var parts := Components(path);
    var searchPath := path;
    ghost var k := |parts|;
    assert parts[..k] == parts;
    while true
      invariant k <= |parts| && searchPath == Render(true, parts[..k]) && NoneDeeper(place, parts, k)
      decreases k
    {
      var found := FindHere(place, join, path, searchPath, parts, k);
      if found.Some? {
        return found.value;
      }
      if searchPath == "/" {
        RenderIsInjective(parts[..k], []);
        break;
      }
      assert k > 0;
      DirOfRender(parts[..k]);
      assert parts[..k][..k - 1] == parts[..k - 1];
      searchPath := Dir(searchPath);
      k := k - 1;
    }
    return OnContainer(mountPoint, resolved);
  }

  lemma OneDeepestVolume(place: Place, parts: seq<string>, i: nat, j: nat)
    requires DeepestVolume(place, parts, i) && DeepestVolume(place, parts, j)
    ensures i == j
  {
  }

  lemma OneDeepestMount(place: Place, parts: seq<string>, i: nat, j: nat)
    requires DeepestMount(place, parts, i) && DeepestMount(place, parts, j)
    ensures i == j
  {
  }

  /** The conditions leave one possibility: the container root exactly when nothing covers the path, and
      otherwise one volume or one bind mount, with one path on it. */
  lemma OneResolution(place: Place, join: SecureJoin, parts: seq<string>, r: Resolution, q: Resolution)
    requires ResolvesTo(place, join, parts, r) && ResolvesTo(place, join, parts, q)
    ensures r == q || (r.OnContainer? && q.OnContainer?)
  {
    if (r.OnVolume? || r.VolumeFailed?) && (q.OnVolume? || q.VolumeFailed?) {
      OneDeepestVolume(place, parts, r.volume, q.volume);
    } else if (r.OnMount? || r.MountFailed?) && (q.OnMount? || q.MountFailed?) {
      OneDeepestMount(place, parts, r.mount, q.mount);
    }
  }
}
