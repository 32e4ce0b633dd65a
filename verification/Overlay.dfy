/** The mounted image (instance/src/containers/fs.rs, instance/src/containers/mod.rs): every layer is
    unpacked into a folder named after its digest, and the folders, last layer first, become the
    `lowerdir` option of an overlay mount. Layers here hold regular files and no whiteouts. */
module Overlay {
  import opened Protocol
  import opened Text
  import LayerPool

  type Files = map<string, seq<byte>>

  datatype Layer = Layer(digest: string, files: Files)

  // ---- The image as the manifest defines it ----

  /** `layers` property of section "Image Manifest Property Descriptions" of the OCI Image Manifest
      Specification: the base layer comes first, and later layers override earlier ones. */
  function Image(layers: seq<Layer>): Files {
    if layers == [] then map[] else Image(layers[..|layers| - 1]) + layers[|layers| - 1].files
  }

  // ---- Folders ----

  const LAYERS_FOLDER := "/mnt/layers/"

  function WithoutColons(s: string): (r: string)
    ensures ':' !in r
    ensures ':' !in s ==> r == s
  {
    if s == "" then ""
    else
      var init := WithoutColons(s[..|s| - 1]);
      if s[|s| - 1] == ':' then init else init + [s[|s| - 1]]
  }

  function FolderOf(layer: Layer): string {
    LAYERS_FOLDER + WithoutColons(layer.digest)
  }

  lemma {:induction false} WithoutColonsOfConcat(a: string, b: string)
    ensures WithoutColons(a + b) == WithoutColons(a) + WithoutColons(b)
  {
    if b == "" {
      assert a + b == a;
    } else {
      assert (a + b)[..|a + b| - 1] == a + b[..|b| - 1];
      WithoutColonsOfConcat(a, b[..|b| - 1]);
    }
  }

  function Digest(algorithm: string, encoded: string): string {
    algorithm + [':'] + encoded
  }

  lemma FolderOfDigest(layer: Layer, algorithm: string, encoded: string)
    requires ':' !in algorithm && ':' !in encoded && layer.digest == Digest(algorithm, encoded)
    ensures FolderOf(layer) == LAYERS_FOLDER + (algorithm + encoded)
  {
    WithoutColonsOfConcat(algorithm + [':'], encoded);
    WithoutColonsOfConcat(algorithm, [':']);
    assert [':'][..0] == "";
    assert WithoutColons([':']) == "";
    assert algorithm + "" == algorithm;
  }

  lemma CancelPrefix(head: string, a: string, b: string)
    ensures head + a == head + b <==> a == b
  {
    assert a == (head + a)[|head|..];
    assert b == (head + b)[|head|..];
  }

  /** When two layers share a folder: the colon is dropped, so only the two parts together count.
      Digests of one algorithm are therefore kept apart, those of different algorithms need not be. */
  lemma FoldersCoincideIff(x: Layer, y: Layer, p: string, a: string, q: string, b: string)
    requires ':' !in p && ':' !in a && x.digest == Digest(p, a)
    requires ':' !in q && ':' !in b && y.digest == Digest(q, b)
    ensures FolderOf(x) == FolderOf(y) <==> p + a == q + b
    ensures p == q ==> (FolderOf(x) == FolderOf(y) <==> x.digest == y.digest)
  {
    FolderOfDigest(x, p, a);
    FolderOfDigest(y, q, b);
    CancelPrefix(LAYERS_FOLDER, p + a, q + b);
    CancelPrefix(p, a, b);
    CancelPrefix(p + [':'], a, b);
  }

  /** Layers that share a folder are the same content: what content addressing gives. */
  predicate ContentAddressed(layers: seq<Layer>) {
    forall i, j :: 0 <= i < |layers| && 0 <= j < |layers| && FolderOf(layers[i]) == FolderOf(layers[j]) ==>
      layers[i].files == layers[j].files
  }

  function Folders(layers: seq<Layer>): (r: seq<string>)
    ensures |r| == |layers|
    ensures forall i :: 0 <= i < |r| ==> r[i] == FolderOf(layers[i]) && ':' !in r[i]
  {
    seq(|layers|, i requires 0 <= i < |layers| => FolderOf(layers[i]))
  }

  /** The loop over `manifest.layers()` that fills `layer_folders`. */
  method LayerFolders(layers: seq<Layer>) returns (folders: seq<string>)
    ensures folders == Folders(layers)
  {
    folders := [];
    for i := 0 to |layers|
      invariant folders == Folders(layers)[..i]
    {
      folders := folders + [FolderOf(layers[i])];
    }
  }

  // ---- Unpacking ----

  type Disk = map<string, Files>

  function EmptyFolders(folders: seq<string>): Disk {
    map f | f in folders :: map[]
  }

  function Unpack(disk: Disk, layer: Layer): Disk {
    var f := FolderOf(layer);
    disk[f := (if f in disk then disk[f] else map[]) + layer.files]
  }

  /** The folders after the layers `done` have been unpacked, in that order. */
  function DiskAfter(layers: seq<Layer>, done: seq<nat>): Disk
    requires forall k :: 0 <= k < |done| ==> done[k] < |layers|
  {
    if done == [] then EmptyFolders(Folders(layers))
    else Unpack(DiskAfter(layers, done[..|done| - 1]), layers[done[|done| - 1]])
  }

  predicate SomeoneUnpacked(layers: seq<Layer>, done: seq<nat>, folder: string)
    requires forall k :: 0 <= k < |done| ==> done[k] < |layers|
  {
    exists k :: 0 <= k < |done| && FolderOf(layers[done[k]]) == folder
  }

  lemma SomeoneBefore(layers: seq<Layer>, done: seq<nat>, folder: string)
    requires done != [] && forall k :: 0 <= k < |done| ==> done[k] < |layers|
    ensures SomeoneUnpacked(layers, done[..|done| - 1], folder) ==> SomeoneUnpacked(layers, done, folder)
    ensures FolderOf(layers[done[|done| - 1]]) == folder ==> SomeoneUnpacked(layers, done, folder)
  {
    var init := done[..|done| - 1];
    if SomeoneUnpacked(layers, init, folder) {
      var k :| 0 <= k < |init| && FolderOf(layers[init[k]]) == folder;
      assert done[k] == init[k];
    }
  }

  lemma SomeoneAfter(layers: seq<Layer>, done: seq<nat>, folder: string)
    requires done != [] && forall k :: 0 <= k < |done| ==> done[k] < |layers|
    requires SomeoneUnpacked(layers, done, folder) && FolderOf(layers[done[|done| - 1]]) != folder
    ensures SomeoneUnpacked(layers, done[..|done| - 1], folder)
  {
    var k :| 0 <= k < |done| && FolderOf(layers[done[k]]) == folder;
    assert done[..|done| - 1][k] == done[k];
  }

  /** Unpacking a layer into a folder that is empty or already holds the same files. */
  lemma UnpackedFolder(disk: Disk, layer: Layer, folder: string, files: Files)
    requires folder in disk && (disk[folder] == map[] || disk[folder] == files)
    requires FolderOf(layer) == folder ==> layer.files == files
    ensures folder in Unpack(disk, layer)
    ensures Unpack(disk, layer)[folder] == if FolderOf(layer) == folder then files else disk[folder]
  {
    assert files + files == files && map[] + files == files;
  }

  lemma {:induction false} FolderHolds(layers: seq<Layer>, done: seq<nat>, i: nat)
    requires forall k :: 0 <= k < |done| ==> done[k] < |layers|
    requires i < |layers| && ContentAddressed(layers)
    ensures var f := FolderOf(layers[i]);
            f in DiskAfter(layers, done) &&
            DiskAfter(layers, done)[f] == if SomeoneUnpacked(layers, done, f) then layers[i].files else map[]
  {
    var f := FolderOf(layers[i]);
    if done == [] {
      assert Folders(layers)[i] == f;
    } else {
      var n := |done| - 1;
      FolderHolds(layers, done[..n], i);
      SomeoneBefore(layers, done, f);
      if SomeoneUnpacked(layers, done, f) && FolderOf(layers[done[n]]) != f {
        SomeoneAfter(layers, done, f);
      }
      UnpackedFolder(DiskAfter(layers, done[..n]), layers[done[n]], f, layers[i].files);
    }
  }

  // ---- The mount option ----

  function Reverse(s: seq<string>): (r: seq<string>)
    ensures |r| == |s|
    ensures forall i :: 0 <= i < |s| ==> r[i] == s[|s| - 1 - i]
  {
    if s == [] then [] else [s[|s| - 1]] + Reverse(s[..|s| - 1])
  }

  function LowerDir(folders: seq<string>): string {
    Join(Reverse(folders), ':')
  }

  /** The overlay driver reads the option back as the directory list exactly when there is a directory and
      no name contains the separator; this is why the digest's colon must go. */
  lemma OptionIsReadBackIff(folders: seq<string>)
    ensures Split(LowerDir(folders), ':') == Reverse(folders)
            <==> folders != [] && forall i :: 0 <= i < |folders| ==> ':' !in folders[i]
  {
    var names := Reverse(folders);
    SplitUndoesJoinIff(names, ':');
    assert forall i :: 0 <= i < |folders| ==> folders[i] == names[|folders| - 1 - i];
  }

  // ---- The mount ----

  /** An overlay looks a name up in its lower directories, first match first. */
  function Lookup(dirs: seq<Files>, path: string): Option<seq<byte>> {
    if dirs == [] then None
    else if path in dirs[0] then Some(dirs[0][path])
    else Lookup(dirs[1..], path)
  }

  function Find(files: Files, path: string): Option<seq<byte>> {
    if path in files then Some(files[path]) else None
  }

  predicate CanMount(disk: Disk, option: string) {
    forall i :: 0 <= i < |Split(option, ':')| ==> Split(option, ':')[i] in disk
  }

  function Mount(disk: Disk, option: string): seq<Files>
    requires CanMount(disk, option)
  {
    var names := Split(option, ':');
    seq(|names|, i requires 0 <= i < |names| => disk[names[i]])
  }

  function LayersLastFirst(layers: seq<Layer>): (r: seq<Files>)
    ensures |r| == |layers|
    ensures forall i :: 0 <= i < |r| ==> r[i] == layers[|layers| - 1 - i].files
  {
    if layers == [] then [] else [layers[|layers| - 1].files] + LayersLastFirst(layers[..|layers| - 1])
  }

  lemma {:induction false} FirstMatchIsLatestLayer(layers: seq<Layer>, path: string)
    ensures Lookup(LayersLastFirst(layers), path) == Find(Image(layers), path)
  {
    if layers != [] {
      var n := |layers| - 1;
      FirstMatchIsLatestLayer(layers[..n], path);
      assert LayersLastFirst(layers)[1..] == LayersLastFirst(layers[..n]);
    }
  }

  /** Every layer has been unpacked, in some order, some perhaps more than once. */
  predicate Covers(done: seq<nat>, n: nat) {
    && (forall k :: 0 <= k < |done| ==> done[k] < n)
    && (forall i: nat :: i < n ==> i in done)
  }

  lemma FolderIsUnpacked(layers: seq<Layer>, done: seq<nat>, j: nat)
    requires ContentAddressed(layers) && Covers(done, |layers|) && j < |layers|
    ensures FolderOf(layers[j]) in DiskAfter(layers, done)
    ensures DiskAfter(layers, done)[FolderOf(layers[j])] == layers[j].files
  {
    FolderHolds(layers, done, j);
    assert j in done;
    var k :| 0 <= k < |done| && done[k] == j;
    assert SomeoneUnpacked(layers, done, FolderOf(layers[j]));
  }

  /** Every layer's folder holds its files. */
  predicate AllUnpacked(layers: seq<Layer>, disk: Disk) {
    forall j :: 0 <= j < |layers| ==> FolderOf(layers[j]) in disk && disk[FolderOf(layers[j])] == layers[j].files
  }

  lemma ReversedFolder(layers: seq<Layer>, i: nat)
    requires i < |layers|
    ensures Reverse(Folders(layers))[i] == FolderOf(layers[|layers| - 1 - i])
  {
    var folders := Folders(layers);
    assert Reverse(folders)[i] == folders[|folders| - 1 - i];
  }

  lemma MountedDirectory(layers: seq<Layer>, disk: Disk, i: nat)
    requires AllUnpacked(layers, disk) && i < |layers|
    ensures var name := Reverse(Folders(layers))[i];
            name in disk && disk[name] == LayersLastFirst(layers)[i]
  {
    ReversedFolder(layers, i);
  }

  lemma MountOfUnpacked(layers: seq<Layer>, disk: Disk)
    requires layers != [] && AllUnpacked(layers, disk)
    ensures CanMount(disk, LowerDir(Folders(layers)))
    ensures Mount(disk, LowerDir(Folders(layers))) == LayersLastFirst(layers)
  {
    var names := Reverse(Folders(layers));
    SplitOfJoin(names, ':');
    forall i | 0 <= i < |names| ensures names[i] in disk && disk[names[i]] == LayersLastFirst(layers)[i] {
      MountedDirectory(layers, disk, i);
    }
  }

  lemma MountIsLayersLastFirst(layers: seq<Layer>, done: seq<nat>)
    requires layers != [] && ContentAddressed(layers) && Covers(done, |layers|)
    ensures CanMount(DiskAfter(layers, done), LowerDir(Folders(layers)))
    ensures Mount(DiskAfter(layers, done), LowerDir(Folders(layers))) == LayersLastFirst(layers)
  {
    forall j | 0 <= j < |layers|
      ensures FolderOf(layers[j]) in DiskAfter(layers, done)
      ensures DiskAfter(layers, done)[FolderOf(layers[j])] == layers[j].files
    {
      FolderIsUnpacked(layers, done, j);
    }
    MountOfUnpacked(layers, DiskAfter(layers, done));
  }

  /** Without layers the option is empty and names no folder. */
  lemma NoLayersNoMount()
    ensures !CanMount(DiskAfter([], []), LowerDir(Folders([])))
  {
    assert Split("", ':')[0] == "";
  }

  /** Whatever the interleaving of the workers that led main to mount the image, each path of the
      mount shows what the manifest's layers, applied in order, put there. */
  lemma MountShowsTheImage(layers: seq<Layer>, events: seq<LayerPool.Event>, path: string)
    requires layers != [] && ContentAddressed(layers)
    requires LayerPool.After(|layers|, events).Some?
    requires LayerPool.After(|layers|, events).value.answer == LayerPool.Pulled
    ensures var done := LayerPool.After(|layers|, events).value.extracted;
            && Covers(done, |layers|)
            && CanMount(DiskAfter(layers, done), LowerDir(Folders(layers)))
            && Lookup(Mount(DiskAfter(layers, done), LowerDir(Folders(layers))), path) == Find(Image(layers), path)
  {
    var done := LayerPool.After(|layers|, events).value.extracted;
    LayerPool.SuccessMeansEveryLayerOnce(|layers|, events);
    PermutationCovers(done, |layers|);
    MountIsLayersLastFirst(layers, done);
    FirstMatchIsLatestLayer(layers, path);
  }

  lemma PermutationCovers(done: seq<nat>, n: nat)
    requires multiset(done) == LayerPool.UpTo(n)
    ensures Covers(done, n)
  {
    forall k | 0 <= k < |done| ensures done[k] < n {
      assert multiset(done)[done[k]] > 0;
    }
    forall i: nat | i < n ensures i in done {
      assert multiset(done)[i] == 1;
    }
  }
}
