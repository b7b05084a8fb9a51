/** From a packed directory on one machine, through the registry, to the same tree on another. */
module Delivery {
  import opened Wrappers
  import opened Metadata
  import opened Publishing
  import opened PublishSafety
  import Paths
  import Archive
  import Pack
  import Install

  /** What the registry answers when a version is looked up. */
  function Answered(s: State, plugin: PluginId, version: string): Option<Install.Answer> {
    var key := Resolve(s.tables, plugin, version);
    if key.None? || key.value !in s.tables.versions then None
    else Some(Install.Answer(key.value.version, s.tables.versions[key.value].checksum))
  }

  /** What a download request gets whose version is resolved in one state and whose blob is
      opened in a later one. */
  function Served(resolving: State, opening: State, plugin: PluginId, version: string): Option<Blob> {
    var key := Resolve(resolving.tables, plugin, version);
    if key.None? || key.value !in opening.blobs then None else Some(opening.blobs[key.value])
  }

  lemma RowNamed(w: World, s: State, key: VersionKey)
    requires Proper(w) && Exact(w, s) && key in s.tables.versions
    ensures ReadableName(key.version)
  {
    hide Proper;
    VersionKnownIff(s.ops, key);
    var i :| 0 <= i < |s.ops| && Uploads(s.ops[i], key);
    assert NamedProperly(w, s.ops[i]);
    assert w.semver(key.version);
    NotSemver(w, key.version);
  }

  lemma NotSemver(w: World, version: string)
    requires Proper(w) && w.semver(version)
    ensures ReadableName(version)
  {
  }

  /** An installer asks for a version, "latest" included, and then downloads the version it was
      told, while publishing goes on between its requests: whenever the first answer comes, the
      second does, and it passes the checksum comparison. */
  lemma DownloadsMatch(w: World, s: State, before: seq<Step>, between: seq<Step>, plugin: PluginId, version: string)
    requires Proper(w) && Exact(w, s) && AllUnraced(w, s, before) && Steps(w, s, before).Some?
    requires AllUnraced(w, Steps(w, s, before).value, between)
    requires Steps(w, Steps(w, s, before).value, between).Some?
    requires Answered(s, plugin, version).Some?
    ensures var t := Steps(w, s, before).value; var u := Steps(w, t, between).value;
            var answer := Answered(s, plugin, version).value; var key := VersionKey(plugin, answer.version);
            && key in s.tables.versions && key in s.blobs
            && Served(t, u, plugin, answer.version) == Some(s.blobs[key])
            && w.hash(s.blobs[key]) == answer.checksum
  {
    hide Exact, AllUnraced, Steps;
    var t := Steps(w, s, before).value;
    var answer := Answered(s, plugin, version).value;
    var key := VersionKey(plugin, answer.version);
    RowNamed(w, s, key);
    IntactOf(w, s, key);
    PublishedStaysOpenable(w, s, before, key);
    StepsExact(w, s, before);
    PublishedStaysOpenable(w, t, between, key);
  }

  /** A directory tree is packed and published; later, after and amid any other activity, it is
      resolved, downloaded, checked and unpacked on another machine. The download is the upload
      and passes the check, and unpacking succeeds exactly when the files fit the limit; the
      destination then holds that tree and nothing else, whatever it held before. */
  lemma PublishThenInstall(w: World, s: State, id: int, before: seq<Step>, between: seq<Step>,
                           tree: Pack.Forest, encode: seq<Archive.Entry> -> Bytes,
                           decode: Bytes -> Option<Archive.Stream>,
                           version: string, disk: Archive.Disk, dest: string)
    requires Pack.WellNamed(tree) && Pack.NoSpecials(tree) && Pack.Entries([], tree).Some?
    requires var entries := Pack.Entries([], tree).value;
             decode(encode(entries)) == Some(Archive.Stream(entries, false))
    requires Proper(w) && Exact(w, s) && AllUnraced(w, s, before) && Steps(w, s, before).Some?
    requires AllUnraced(w, Steps(w, s, before).value, between)
    requires Steps(w, Steps(w, s, before).value, between).Some?
    requires id in s.publishers && Won(s.publishers[id])
    requires s.publishers[id].input.tarball == encode(Pack.Entries([], tree).value)
    requires Resolve(s.tables, s.publishers[id].input.key.plugin, version) == Some(s.publishers[id].input.key)
    requires Paths.Parse(dest).segs != []
    requires Archive.MkdirAll(Install.Wiped(disk, Paths.Parse(dest), {}), Paths.Parse(dest)).Some?
    ensures var t := Steps(w, s, before).value; var u := Steps(w, t, between).value;
            var input := s.publishers[id].input; var plugin := input.key.plugin;
            && Answered(s, plugin, version) == Some(Install.Answer(input.key.version, w.hash(input.tarball)))
            && Served(t, u, plugin, input.key.version) == Some(input.tarball)
            && var r := Install.Unpacked(disk, dest, decode(input.tarball));
               && r.Some?
               && (r.value.failure.None? <==>
                     Archive.Fits(Archive.UNPACK, Archive.MAX_DECOMPRESSED_BYTES, 0, Pack.Entries([], tree).value))
               && (Pack.FileBytes(tree) < Archive.MAX_DECOMPRESSED_BYTES ==> r.value.failure.None?)
               && (r.value.failure.None? ==> Install.Holds(r.value.disk, Paths.Parse(dest), tree))
  {
    hide Exact, AllUnraced, Steps, Archive.Extract, Archive.Fits, Archive.MkdirAll, Install.Wiped, Install.Holds;
    hide Pack.Entries, Paths.Parse, Pack.WellNamed, Pack.NoSpecials, Pack.FileBytes, Pack.Layout;
    var input := s.publishers[id].input;
    WinnerStored(w, s, id);
    DownloadsMatch(w, s, before, between, input.key.plugin, version);
    Install.ReplaceGivesTree(disk, dest, Archive.MAX_DECOMPRESSED_BYTES, tree);
    if Pack.FileBytes(tree) < Archive.MAX_DECOMPRESSED_BYTES {
      Install.SmallFits(tree, Archive.MAX_DECOMPRESSED_BYTES);
    }
  }

  lemma WinnerStored(w: World, s: State, id: int)
    requires Exact(w, s) && id in s.publishers && Won(s.publishers[id])
    ensures var input := s.publishers[id].input;
            && input.key in s.tables.versions && s.tables.versions[input.key].checksum == w.hash(input.tarball)
            && input.key in s.blobs && s.blobs[input.key] == input.tarball
  {
    assert PublisherOk(w, s, s.publishers[id]);
    assert PublisherExact(s, s.publishers[id]);
  }

  /** A published version is found under its own name. */
  lemma FoundByName(w: World, s: State, key: VersionKey)
    requires Proper(w) && Exact(w, s) && key in s.tables.versions
    ensures Resolve(s.tables, key.plugin, key.version) == Some(key)
  {
    RowNamed(w, s, key);
  }

  /** The install command run against the registry: looked up in one state, downloaded over two
      later ones. Nothing failing on the machine, it installs exactly the tree that was packed. */
  method InstallPublished(client: Install.Client, w: World, s: State, ghost id: int, before: seq<Step>,
                          between: seq<Step>,
                          ghost tree: Pack.Forest, ghost encode: seq<Archive.Entry> -> Bytes,
                          plugin: PluginId, version: string, dir: string, now: int)
    returns (outcome: Install.Outcome)
    requires client.hash == w.hash
    requires Pack.WellNamed(tree) && Pack.NoSpecials(tree) && Pack.Entries([], tree).Some?
    requires var entries := Pack.Entries([], tree).value;
             client.decode(encode(entries)) == Some(Archive.Stream(entries, false))
    requires Pack.FileBytes(tree) < Archive.MAX_DECOMPRESSED_BYTES
    requires Proper(w) && Exact(w, s) && AllUnraced(w, s, before) && Steps(w, s, before).Some?
    requires AllUnraced(w, Steps(w, s, before).value, between)
    requires Steps(w, Steps(w, s, before).value, between).Some?
    requires id in s.publishers && Won(s.publishers[id])
    requires s.publishers[id].input.tarball == encode(Pack.Entries([], tree).value)
    requires s.publishers[id].input.key.plugin == plugin
    requires Resolve(s.tables, plugin, version) == Some(s.publishers[id].input.key)
    requires var p := Paths.Parse(Install.Destination(dir, plugin.name));
             p.segs != [] && Archive.MkdirAll(Install.Wiped(client.machine.disk, p, {}), p).Some?
    modifies client`lock, client.machine
    ensures outcome == Install.Installed
    ensures Install.Holds(client.machine.disk, Paths.Parse(Install.Destination(dir, plugin.name)), tree)
    ensures var key := s.publishers[id].input.key;
            client.lock == old(client.lock)[Install.PackageName(plugin.scope, plugin.name) :=
              Install.LockEntry(key.version, w.hash(s.publishers[id].input.tarball), client.registry,
                                Install.Destination(dir, plugin.name), now)]
  {
    hide Exact, AllUnraced, Steps, Won, Archive.Extract, Archive.Fits, Archive.MkdirAll, Install.Wiped, Install.Holds;
    hide Pack.Entries, Paths.Parse, Pack.WellNamed, Pack.NoSpecials, Pack.FileBytes, Pack.Layout, Resolve,
      Install.Unpacked;
    hide Install.Destination, Install.OnlyAround, Archive.Nested, Answered, Served;
    var dest := Install.Destination(dir, plugin.name);
    PublishThenInstall(w, s, id, before, between, tree, encode, client.decode, version, client.machine.disk, dest);
    var t := Steps(w, s, before).value;
    var answer := Answered(s, plugin, version);
    var download := Served(t, Steps(w, t, between).value, plugin, answer.value.version);
    var luck := Install.Luck({}, true, true, map[]);
    outcome := client.Install(plugin.scope, plugin.name, dir, answer, download, luck, now);
  }
}
