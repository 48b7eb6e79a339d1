// Retargeting a Cloud Hypervisor snapshot's config to another VM: a recursive rewrite of a JSON
// tree that replaces file paths by suffix, rebuilds network devices and drops shared folders.
module SnapshotRewrite {
  import opened Paths

  datatype Json =
    | Null
    | Bool(b: bool)
    | Number(n: real)
    | Str(s: string)
    | Arr(items: seq<Json>)
    | Obj(fields: map<string, Json>)

  type Fields = map<string, Json>

  const FILE_SCHEME := "file://"
  const SNAPSHOT_DIR_KEY := "cloud-hypervisor-snapshot/"
  const PASST := "passt"
  const TAP := "tap"

  datatype Config = Config(
    disks: seq<string>, diskPath: string,
    netBackend: string, netMAC: string, netSocketPath: string, netTapName: string)

  /** The VM a snapshot config is rewritten for. */
  datatype Target = Target(vmDir: string, restoreDir: string, config: Config)

  function DiskPaths(config: Config): seq<string> {
    if |config.disks| > 0 then config.disks else [config.diskPath]
  }

  function DiskNames(config: Config): set<string> {
    set path | path in DiskPaths(config) :: Base(path)
  }

  /** The directories are clean paths, as the manager builds them with filepath.Join, and the disks
      are files with ordinary names. */
  predicate Usable(t: Target) {
    CleanDir(t.vmDir) && CleanDir(t.restoreDir) && forall n :: n in DiskNames(t.config) ==> Ordinary(n)
  }

  const VM_FILES: set<string> := {
    "cloud-hypervisor-vsock.sock", "cloud-hypervisor-api.sock", "cloud-hypervisor-virtiofs.sock",
    "serial.log", "cloud-hypervisor.log", "cloud-hypervisor-event.log"
  }

  const RESTORE_FILES: set<string> := {"kernel", "initramfs", "config.json", "memory-ranges", "state.json"}

  function TableKeys(t: Target): set<string> {
    VM_FILES + RESTORE_FILES + {SNAPSHOT_DIR_KEY} + DiskNames(t.config)
  }

  lemma FixedNamesAreOrdinary(n: string)
    requires n in VM_FILES + RESTORE_FILES
    ensures Ordinary(n)
  {
  }

  /** One entry of the replacement table; a disk's entry overrides a fixed one of the same name. */
  function Replacement(t: Target, n: string): string
    requires Usable(t) && n in TableKeys(t)
  {
    if n in DiskNames(t.config) then Join(t.restoreDir, n)
    else if n == SNAPSHOT_DIR_KEY then t.restoreDir
    else
      FixedNamesAreOrdinary(n);
      Join(if n in VM_FILES then t.vmDir else t.restoreDir, n)
  }

  function Replacements(t: Target): (m: map<string, string>)
    requires Usable(t)
    ensures m.Keys == TableKeys(t)
  {
    map n | n in TableKeys(t) :: Replacement(t, n)
  }

  // ---- Paths ----

  /** The suffix test of the loop over the table. */
  predicate Matches(clean: string, suffix: string) {
    clean == suffix || EndsWith(clean, "/" + suffix)
  }

  /** Keys as they occur in a table: one path element, possibly with a slash after it. */
  predicate KeyShape(k: string) {
    (k != "" && NoSlash(k)) || (k != "" && k[|k| - 1] == '/' && NoSlash(k[..|k| - 1]))
  }

  /** The only key of that shape that can match a path: its last element, with a trailing slash if
      the path has one. */
  function KeyOf(clean: string): string {
    if clean != "" && clean[|clean| - 1] == '/' then LastElement(clean[..|clean| - 1]) + "/"
    else LastElement(clean)
  }

  lemma OnlyOneKeyMatches(clean: string, k: string)
    requires KeyShape(k)
    ensures Matches(clean, k) <==> clean != "" && k == KeyOf(clean)
  {
    hide Matches;
    MatchesIsTail(clean, k);
    if NoSlash(k) {
      BareKey(clean, k);
    } else {
      SlashedKey(clean, k[..|k| - 1]);
      assert k == k[..|k| - 1] + "/";
    }
  }

  /** `tail` is the end of `clean`, from the start or from a slash on. */
  predicate IsTail(clean: string, tail: string) {
    EndsWith(clean, tail) && (|tail| < |clean| ==> clean[|clean| - |tail| - 1] == '/')
  }

  lemma BareKey(clean: string, k: string)
    requires k != "" && NoSlash(k)
    ensures IsTail(clean, k) <==> clean != "" && k == KeyOf(clean)
  {
    hide LastElement;
    assert k[|k| - 1] in k && k[|k| - 1] != '/';
    if IsTail(clean, k) {
      assert clean[|clean| - 1] == clean[|clean| - |k|..][|k| - 1];
      LastElementUnique(clean, k);
    }
  }

  lemma SlashedKey(clean: string, stem: string)
    requires NoSlash(stem)
    ensures IsTail(clean, stem + "/") <==> clean != "" && stem + "/" == KeyOf(clean)
  {
    hide LastElement;
    var k := stem + "/";
    if clean != "" && clean[|clean| - 1] == '/' {
      var front := clean[..|clean| - 1];
      assert clean == front + "/";
      if IsTail(clean, k) {
        assert front[|front| - |stem|..] == k[..|stem|];
        LastElementUnique(front, stem);
      }
    } else {
      assert k[|k| - 1] == '/';
    }
  }

  lemma MatchesIsTail(clean: string, k: string)
    ensures Matches(clean, k) <==> IsTail(clean, k)
  {
    if |k| < |clean| {
      assert clean[|clean| - |k| - 1..] == [clean[|clean| - |k| - 1]] + clean[|clean| - |k|..];
      assert EndsWith(clean, "/" + k) ==> clean[|clean| - |k| - 1..][0] == '/' && clean[|clean| - |k| - 1..][1..] == k;
    } else if |k| == |clean| {
      assert clean[0..] == clean;
    }
  }

  /** What a path is rewritten to by a table, without naming an order of iteration. */
  function RewritePath(value: string, table: map<string, string>): string {
    var clean := TrimPrefix(value, FILE_SCHEME);
    if clean != "" && KeyOf(clean) in table then
      (if FILE_SCHEME <= value then FILE_SCHEME else "") + table[KeyOf(clean)]
    else value
  }

  /** The loop as written: it visits the table's keys in whatever order and stops at the first match.
      The order does not matter. */
  method RewritePathLoop(value: string, table: map<string, string>) returns (r: string)
    requires forall k :: k in table ==> KeyShape(k)
    ensures r == RewritePath(value, table)
  {
    var clean := TrimPrefix(value, FILE_SCHEME);
    var left := table.Keys;
    while left != {}
      invariant left <= table.Keys
      invariant forall k :: k in table && k !in left ==> !Matches(clean, k)
      decreases left
    {
      var suffix :| suffix in left;
      OnlyOneKeyMatches(clean, suffix);
      if Matches(clean, suffix) {
        if FILE_SCHEME <= value {
          return FILE_SCHEME + table[suffix];
        }
        return table[suffix];
      }
      left := left - {suffix};
    }
    if clean != "" && KeyOf(clean) in table {
      OnlyOneKeyMatches(clean, KeyOf(clean));
    }
    return value;
  }

  /** The loop over a given order of the keys. */
  function FirstMatch(value: string, order: seq<string>, table: map<string, string>): string
    requires forall k :: k in order ==> k in table
  {
    if order == [] then value
    else if Matches(TrimPrefix(value, FILE_SCHEME), order[0]) then
      (if FILE_SCHEME <= value then FILE_SCHEME else "") + table[order[0]]
    else FirstMatch(value, order[1..], table)
  }

  /** Every order of iteration over the table rewrites every string alike. */
  lemma {:induction false} OrderDoesNotMatter(value: string, order: seq<string>, table: map<string, string>)
    requires forall k :: k in order ==> k in table && KeyShape(k)
    ensures var clean := TrimPrefix(value, FILE_SCHEME);
            FirstMatch(value, order, table)
            == if clean != "" && KeyOf(clean) in order then RewritePath(value, table) else value
    decreases |order|
  {
    if order != [] {
      OnlyOneKeyMatches(TrimPrefix(value, FILE_SCHEME), order[0]);
      OrderDoesNotMatter(value, order[1..], table);
      assert forall k :: k in order <==> k == order[0] || k in order[1..];
    }
  }

  // ---- Where paths go ----

  /** A path in its parts: the scheme or nothing, any directories, the last element, and a slash
      behind it or not. Every string but the empty one and the bare scheme has such parts. */
  function PathOf(scheme: bool, dirs: string, name: string, slash: bool): string {
    (if scheme then "file://" else "") + (dirs + name + if slash then "/" else "")
  }

  predicate PathParts(scheme: bool, dirs: string, name: string, slash: bool) {
    && NoSlash(name) && (name != "" || slash)
    && (dirs == "" || dirs[|dirs| - 1] == '/')
    && (!scheme ==> !("file://" <= dirs + name + if slash then "/" else ""))
  }

  predicate RuntimeFile(name: string) {
    || name == "cloud-hypervisor-vsock.sock" || name == "cloud-hypervisor-api.sock" || name == "cloud-hypervisor-virtiofs.sock"
    || name == "serial.log" || name == "cloud-hypervisor.log" || name == "cloud-hypervisor-event.log"
  }

  predicate RestoreInput(name: string) {
    name == "kernel" || name == "initramfs" || name == "config.json" || name == "memory-ranges" || name == "state.json"
  }

  /** Where each file is: sockets and logs in the VM directory; what a restore reads, and the disks, in
      the restore directory; the snapshot directory is the restore directory; every other path stays. */
  lemma PathsGoWhereFilesAre(t: Target, scheme: bool, dirs: string, name: string)
    requires Usable(t)
    ensures RuntimeFile(name) || RestoreInput(name) || name in DiskNames(t.config) ==> Ordinary(name)
    ensures PathParts(scheme, dirs, name, false) ==>
              RewritePath(PathOf(scheme, dirs, name, false), Replacements(t)) ==
              var to := if scheme then "file://" else "";
              if name in DiskNames(t.config) then to + Join(t.restoreDir, name)
              else if RuntimeFile(name) then to + Join(t.vmDir, name)
              else if RestoreInput(name) then to + Join(t.restoreDir, name)
              else PathOf(scheme, dirs, name, false)
    ensures PathParts(scheme, dirs, name, true) ==>
              RewritePath(PathOf(scheme, dirs, name, true), Replacements(t)) ==
              if name == "cloud-hypervisor-snapshot" then (if scheme then "file://" else "") + t.restoreDir
              else PathOf(scheme, dirs, name, true)
  {
    FileEntries(t, name);
    if PathParts(scheme, dirs, name, false) {
      FilePath(t, scheme, dirs, name);
    }
    if PathParts(scheme, dirs, name, true) {
      DirectoryPath(t, scheme, dirs, name);
    }
    hide *;
  }

  lemma FilePath(t: Target, scheme: bool, dirs: string, name: string)
    requires Usable(t) && PathParts(scheme, dirs, name, false)
    ensures RuntimeFile(name) || RestoreInput(name) || name in DiskNames(t.config) ==> Ordinary(name)
    ensures RewritePath(PathOf(scheme, dirs, name, false), Replacements(t)) ==
            var to := if scheme then "file://" else "";
            if name in DiskNames(t.config) then to + Join(t.restoreDir, name)
            else if RuntimeFile(name) then to + Join(t.vmDir, name)
            else if RestoreInput(name) then to + Join(t.restoreDir, name)
            else PathOf(scheme, dirs, name, false)
  {
    assert NoSlash(name) && name + "" == name;
    hide *;
    FileEntries(t, name);
    KeyDecides(t, scheme, dirs, name, false);
  }

  lemma DirectoryPath(t: Target, scheme: bool, dirs: string, name: string)
    requires Usable(t) && PathParts(scheme, dirs, name, true)
    ensures RewritePath(PathOf(scheme, dirs, name, true), Replacements(t)) ==
            if name == "cloud-hypervisor-snapshot" then (if scheme then "file://" else "") + t.restoreDir
            else PathOf(scheme, dirs, name, true)
  {
    assert NoSlash(name);
    hide *;
    DirectoryEntry(t, name);
    KeyDecides(t, scheme, dirs, name, true);
  }

  lemma KeyDecides(t: Target, scheme: bool, dirs: string, name: string, slash: bool)
    requires Usable(t) && PathParts(scheme, dirs, name, slash)
    ensures var key := name + if slash then "/" else "";
            RewritePath(PathOf(scheme, dirs, name, slash), Replacements(t)) ==
            if key in TableKeys(t) then (if scheme then "file://" else "") + Replacements(t)[key] else PathOf(scheme, dirs, name, slash)
  {
    PartsTrimmed(scheme, dirs, name, slash);
    KeyOfParts(dirs, name, slash);
    hide KeyOf, TrimPrefix, Replacement, TableKeys, PathOf, FILE_SCHEME, Usable;
  }

  lemma PartsTrimmed(scheme: bool, dirs: string, name: string, slash: bool)
    requires PathParts(scheme, dirs, name, slash)
    ensures var value, clean := PathOf(scheme, dirs, name, slash), dirs + name + if slash then "/" else "";
            && TrimPrefix(value, FILE_SCHEME) == clean && clean != ""
            && (FILE_SCHEME <= value <==> scheme) && FILE_SCHEME == "file://"
  {
    var clean := dirs + name + if slash then "/" else "";
    if scheme {
      TrimAdded(clean);
    } else {
      assert "" + clean == clean;
    }
  }

  lemma KeyOfParts(dirs: string, name: string, slash: bool)
    requires NoSlash(name) && (name != "" || slash) && (dirs == "" || dirs[|dirs| - 1] == '/')
    ensures KeyOf(dirs + name + if slash then "/" else "") == name + if slash then "/" else ""
  {
    if slash {
      KeyWithSlash(dirs, name);
    } else {
      KeyWithoutSlash(dirs, name);
      hide KeyOf;
      assert dirs + name + "" == dirs + name && name + "" == name;
    }
  }

  lemma KeyWithSlash(dirs: string, name: string)
    requires NoSlash(name) && (dirs == "" || dirs[|dirs| - 1] == '/')
    ensures KeyOf(dirs + name + "/") == name + "/"
  {
    var path := dirs + name;
    LastElementUnique(path, name);
    hide LastElement;
    assert (path + "/")[..|path|] == path && (path + "/")[|path|] == '/';
  }

  lemma KeyWithoutSlash(dirs: string, name: string)
    requires NoSlash(name) && name != "" && (dirs == "" || dirs[|dirs| - 1] == '/')
    ensures KeyOf(dirs + name) == name
  {
    var path := dirs + name;
    LastElementUnique(path, name);
    hide LastElement;
    assert path[|path| - 1] == name[|name| - 1] && name[|name| - 1] in name;
  }

  lemma NamedSets(name: string)
    ensures name in VM_FILES <==> RuntimeFile(name)
    ensures name in RESTORE_FILES <==> RestoreInput(name)
  {
  }

  lemma FileEntries(t: Target, name: string)
    requires Usable(t)
    ensures RuntimeFile(name) || RestoreInput(name) || name in DiskNames(t.config) ==> Ordinary(name)
    ensures NoSlash(name) ==>
              (name in TableKeys(t) <==> RuntimeFile(name) || RestoreInput(name) || name in DiskNames(t.config))
    ensures NoSlash(name) && name in TableKeys(t) ==>
              Replacements(t)[name] ==
              Join(if RuntimeFile(name) && name !in DiskNames(t.config) then t.vmDir else t.restoreDir, name)
  {
    NamedSets(name);
    if name in VM_FILES + RESTORE_FILES {
      FixedNamesAreOrdinary(name);
    }
    assert SNAPSHOT_DIR_KEY[|SNAPSHOT_DIR_KEY| - 1] in SNAPSHOT_DIR_KEY;
    hide DiskNames, VM_FILES, RESTORE_FILES, Join, RuntimeFile, RestoreInput, SNAPSHOT_DIR_KEY;
  }

  lemma DirectoryEntry(t: Target, name: string)
    requires Usable(t)
    ensures NoSlash(name) ==> (name + "/" in TableKeys(t) <==> name == "cloud-hypervisor-snapshot")
    ensures name == "cloud-hypervisor-snapshot" ==> name + "/" in TableKeys(t) && Replacements(t)[name + "/"] == t.restoreDir
  {
    var dir, key := "cloud-hypervisor-snapshot", name + "/";
    assert SNAPSHOT_DIR_KEY == dir + "/";
    assert key[..|name|] == name && (dir + "/")[..|dir|] == dir && key[|name|] == '/' && '/' in key;
    TableKeyShapes(t);
    hide DiskNames, Usable, Join, VM_FILES, RESTORE_FILES, TableKeys, SNAPSHOT_DIR_KEY;
    ReplacementShape(t, SNAPSHOT_DIR_KEY);
  }

  /** Every string has such parts, but the empty one and the bare scheme, which stay as they are. */
  lemma PartsOf(value: string) returns (scheme: bool, dirs: string, name: string, slash: bool)
    ensures TrimPrefix(value, "file://") != "" ==> PathParts(scheme, dirs, name, slash) && PathOf(scheme, dirs, name, slash) == value
    ensures TrimPrefix(value, "file://") == "" ==> forall table :: RewritePath(value, table) == value
  {
    scheme := "file://" <= value;
    var clean := TrimPrefix(value, "file://");
    assert value == (if scheme then "file://" else "") + clean;
    dirs, name, slash := "", "", false;
    if clean != "" {
      dirs, name, slash := CleanParts(clean);
    }
  }

  lemma CleanParts(clean: string) returns (dirs: string, name: string, slash: bool)
    requires clean != ""
    ensures dirs + name + (if slash then "/" else "") == clean && NoSlash(name) && (name != "" || slash)
    ensures dirs == "" || dirs[|dirs| - 1] == '/'
  {
    hide LastElement;
    slash := clean[|clean| - 1] == '/';
    var path := if slash then clean[..|clean| - 1] else clean;
    assert clean == path + if slash then "/" else "";
    name := LastElement(path);
    dirs := path[..|path| - |name|];
    assert path == dirs + name;
    if name == "" && path != "" {
      assert path[|path| - 1] == '/';
    }
  }

  // ---- Network devices ----

  const NET_KEYS: set<string> := {
    "tap", "host_mac", "ip", "mask", "mtu", "offload_csum", "offload_tso", "offload_ufo", "vhost_mode"
  }

  predicate LooksLikeNetDevice(m: Fields) {
    && "path" !in m && "image_type" !in m
    && ((exists k :: k in NET_KEYS && k in m) || ("vhost_user" in m && m["vhost_user"] == Bool(true)))
  }

  function WithMAC(m: Fields, config: Config): Fields {
    if config.netMAC != "" then m["mac" := Str(config.netMAC)] else m
  }

  const PASST_DROPS: set<string> := {"tap", "ip", "mask", "host_mac", "socket", "fd", "fds"}
  const TAP_DROPS: set<string> := {"host_mac", "socket", "vhost_socket", "vhost_user", "vhost_mode"}

  predicate UsesPasst(config: Config) { config.netBackend == PASST }

  predicate UsesTap(config: Config) {
    (config.netBackend == TAP || config.netBackend == "") && config.netTapName != ""
  }

  function RewriteNetDevice(m: Fields, config: Config): Fields {
    var named := WithMAC(m, config);
    if UsesPasst(config) then
      named["vhost_user" := Bool(true)]["vhost_socket" := Str(config.netSocketPath)]["vhost_mode" := Str("Client")] - PASST_DROPS
    else if UsesTap(config) then
      named["tap" := Str(config.netTapName)] - TAP_DROPS
    else named
  }

  /** What is taken for a network device, key by key. */
  lemma NetDeviceKeys(m: Fields)
    ensures LooksLikeNetDevice(m) <==>
              && "path" !in m && "image_type" !in m
              && (|| "tap" in m || "host_mac" in m || "ip" in m || "mask" in m || "mtu" in m || "offload_csum" in m
                  || "offload_tso" in m || "offload_ufo" in m || "vhost_mode" in m
                  || ("vhost_user" in m && m["vhost_user"] == Bool(true)))
  {
    assert "tap" in NET_KEYS && "host_mac" in NET_KEYS && "ip" in NET_KEYS && "mask" in NET_KEYS && "mtu" in NET_KEYS;
    assert "offload_csum" in NET_KEYS && "offload_tso" in NET_KEYS && "offload_ufo" in NET_KEYS && "vhost_mode" in NET_KEYS;
  }

  /** What becomes of one, key by key: one connection to the network and no trace of another. */
  lemma NetDeviceBecomes(m: Fields, config: Config)
    ensures var r := RewriteNetDevice(m, config);
            && (if config.netMAC != "" then HasString(r, "mac", config.netMAC) else "mac" in r <==> "mac" in m)
            && (config.netMAC == "" && "mac" in m ==> r["mac"] == m["mac"])
            && (config.netBackend == "passt" ==>
                  && "vhost_user" in r && r["vhost_user"] == Bool(true) && HasString(r, "vhost_socket", config.netSocketPath)
                  && HasString(r, "vhost_mode", "Client")
                  && r.Keys !! {"tap", "ip", "mask", "host_mac", "socket", "fd", "fds"})
            && ((config.netBackend == "tap" || config.netBackend == "") && config.netTapName != "" ==>
                  && HasString(r, "tap", config.netTapName)
                  && r.Keys !! {"host_mac", "socket", "vhost_socket", "vhost_user", "vhost_mode"})
  {
  }

  /** And everything else about it stays. */
  lemma NetDeviceKeeps(m: Fields, config: Config, k: string)
    requires k != "mac"
    requires config.netBackend == "passt" ==>
               k !in {"vhost_user", "vhost_socket", "vhost_mode", "tap", "ip", "mask", "host_mac", "socket", "fd", "fds"}
    requires (config.netBackend == "tap" || config.netBackend == "") && config.netTapName != "" ==>
               k !in {"tap", "host_mac", "socket", "vhost_socket", "vhost_user", "vhost_mode"}
    ensures k in RewriteNetDevice(m, config) <==> k in m
    ensures k in m ==> RewriteNetDevice(m, config)[k] == m[k]
  {
  }

  /** A rewritten network device is still recognised as one. */
  lemma NetDeviceStays(m: Fields, config: Config)
    requires LooksLikeNetDevice(m)
    ensures LooksLikeNetDevice(RewriteNetDevice(m, config))
  {
    var r := RewriteNetDevice(m, config);
    if UsesPasst(config) {
      assert "vhost_mode" in NET_KEYS && "vhost_mode" in r;
    } else if UsesTap(config) {
      assert "tap" in NET_KEYS && "tap" in r;
    } else if exists k :: k in NET_KEYS && k in m {
      var k :| k in NET_KEYS && k in m;
      assert k in r;
    }
  }

  lemma NetDeviceIdempotent(m: Fields, config: Config)
    ensures RewriteNetDevice(RewriteNetDevice(m, config), config) == RewriteNetDevice(m, config)
  {
  }

  /** When a second target's network settings hide the first one's completely. */
  predicate Overrides(first: Config, second: Config) {
    && (first.netMAC == "" || second.netMAC != "")
    && (if UsesPasst(first) then UsesPasst(second) else UsesTap(first) ==> UsesPasst(second) || UsesTap(second))
  }

  predicate HasString(m: Fields, key: string, value: string) { key in m && m[key] == Str(value) }

  /** On this device nothing of the first settings shows through: the second ones replace it, or it was
      there anyway. */
  predicate Hides(m: Fields, first: Config, second: Config) {
    && (first.netMAC == "" || second.netMAC != "" || HasString(m, "mac", first.netMAC))
    && BackendHides(m, first, second)
  }

  predicate BackendHides(m: Fields, first: Config, second: Config) {
    if UsesPasst(second) || !(UsesPasst(first) || UsesTap(first)) then true
    else if UsesTap(second) then UsesPasst(first) ==> "ip" !in m && "mask" !in m && "fd" !in m && "fds" !in m
    else if UsesPasst(first) then
      && "vhost_user" in m && m["vhost_user"] == Bool(true)
      && HasString(m, "vhost_socket", first.netSocketPath) && HasString(m, "vhost_mode", "Client")
      && m.Keys !! PASST_DROPS
    else HasString(m, "tap", first.netTapName) && m.Keys !! TAP_DROPS
  }

  /** For every device and any two settings. */
  lemma HiddenIff(m: Fields, first: Config, second: Config)
    ensures RewriteNetDevice(RewriteNetDevice(m, first), second) == RewriteNetDevice(m, second) <==> Hides(m, first, second)
  {
    if RewriteNetDevice(RewriteNetDevice(m, first), second) == RewriteNetDevice(m, second) {
      SameHides(m, first, second);
    }
    if Hides(m, first, second) {
      HidesMakesSame(m, first, second);
    }
  }

  lemma SameHides(m: Fields, first: Config, second: Config)
    requires RewriteNetDevice(RewriteNetDevice(m, first), second) == RewriteNetDevice(m, second)
    ensures Hides(m, first, second)
  {
    SameHidesMac(m, first, second);
    if !UsesPasst(second) && (UsesPasst(first) || UsesTap(first)) {
      SameHidesBackend(m, first, second);
    }
  }

  lemma SameHidesMac(m: Fields, first: Config, second: Config)
    requires RewriteNetDevice(RewriteNetDevice(m, first), second) == RewriteNetDevice(m, second)
    ensures first.netMAC == "" || second.netMAC != "" || HasString(m, "mac", first.netMAC)
  {
    if first.netMAC != "" && second.netMAC == "" {
      var twice := RewriteNetDevice(RewriteNetDevice(m, first), second);
      assert "mac" in twice && twice["mac"] == Str(first.netMAC);
    }
  }

  lemma SameHidesBackend(m: Fields, first: Config, second: Config)
    requires !UsesPasst(second) && (UsesPasst(first) || UsesTap(first))
    requires RewriteNetDevice(RewriteNetDevice(m, first), second) == RewriteNetDevice(m, second)
    ensures BackendHides(m, first, second)
  {
    if UsesTap(second) {
      if UsesPasst(first) {
        var twice := RewriteNetDevice(RewriteNetDevice(m, first), second);
        assert "ip" !in twice && "mask" !in twice && "fd" !in twice && "fds" !in twice;
      }
    } else {
      SameWasThere(m, first, second);
    }
  }

  lemma SameWasThere(m: Fields, first: Config, second: Config)
    requires !UsesPasst(second) && !UsesTap(second) && (UsesPasst(first) || UsesTap(first))
    requires RewriteNetDevice(RewriteNetDevice(m, first), second) == RewriteNetDevice(m, second)
    ensures BackendHides(m, first, second)
  {
    var twice, once := RewriteNetDevice(RewriteNetDevice(m, first), second), RewriteNetDevice(m, second);
    if UsesPasst(first) {
      assert twice["vhost_user"] == Bool(true) && twice["vhost_socket"] == Str(first.netSocketPath) && twice["vhost_mode"] == Str("Client");
      assert once.Keys !! PASST_DROPS;
    } else {
      assert twice["tap"] == Str(first.netTapName);
      assert once.Keys !! TAP_DROPS;
    }
  }

  lemma HidesMakesSame(m: Fields, first: Config, second: Config)
    requires Hides(m, first, second)
    ensures RewriteNetDevice(RewriteNetDevice(m, first), second) == RewriteNetDevice(m, second)
  {
    if UsesPasst(second) {
      PasstHidesAll(m, first, second);
    } else if UsesTap(second) {
      TapHides(m, first, second);
    } else {
      NothingShows(m, first, second);
    }
  }

  lemma PasstHidesAll(m: Fields, first: Config, second: Config)
    requires Hides(m, first, second) && UsesPasst(second)
    ensures RewriteNetDevice(RewriteNetDevice(m, first), second) == RewriteNetDevice(m, second)
  {
  }

  lemma TapHides(m: Fields, first: Config, second: Config)
    requires Hides(m, first, second) && !UsesPasst(second) && UsesTap(second)
    ensures RewriteNetDevice(RewriteNetDevice(m, first), second) == RewriteNetDevice(m, second)
  {
  }

  lemma NothingShows(m: Fields, first: Config, second: Config)
    requires Hides(m, first, second) && !UsesPasst(second) && !UsesTap(second)
    ensures RewriteNetDevice(RewriteNetDevice(m, first), second) == RewriteNetDevice(m, second)
  {
    var bare := RewriteNetDevice(m, first);
    assert forall k :: k != "mac" ==> (k in bare <==> k in m) && (k in m ==> bare[k] == m[k]);
  }

  lemma NetDeviceRetargets(m: Fields, first: Config, second: Config)
    requires Overrides(first, second)
    ensures Hides(m, first, second)
    ensures RewriteNetDevice(RewriteNetDevice(m, first), second) == RewriteNetDevice(m, second)
  {
    HiddenIff(m, first, second);
  }

  /** A device on which the first target's settings show through. */
  lemma NetDeviceShowsThrough(first: Config, second: Config) returns (m: Fields)
    requires !Overrides(first, second)
    ensures LooksLikeNetDevice(m)
    ensures RewriteNetDevice(RewriteNetDevice(m, first), second) != RewriteNetDevice(m, second)
  {
    if first.netMAC != "" && second.netMAC == "" {
      m := map["tap" := Null];
      assert "tap" in NET_KEYS && "tap" in m;
      var r, direct := RewriteNetDevice(RewriteNetDevice(m, first), second), RewriteNetDevice(m, second);
      assert "mac" in r && "mac" !in direct;
    } else if UsesPasst(first) {
      m := map["ip" := Null];
      assert "ip" in NET_KEYS && "ip" in m;
      var r, direct := RewriteNetDevice(RewriteNetDevice(m, first), second), RewriteNetDevice(m, second);
      assert "ip" !in r && "ip" in direct;
    } else {
      m := map["ip" := Null];
      assert "ip" in NET_KEYS && "ip" in m;
      var r, direct := RewriteNetDevice(RewriteNetDevice(m, first), second), RewriteNetDevice(m, second);
      assert "tap" in r && "tap" !in direct;
    }
  }

  /** Retargeting a network device leaves nothing of the first target for every device exactly when
      the second target's settings override the first one's. */
  lemma NetDeviceRetargetsIff(first: Config, second: Config)
    ensures (forall m: Fields :: LooksLikeNetDevice(m) ==>
               RewriteNetDevice(RewriteNetDevice(m, first), second) == RewriteNetDevice(m, second))
            <==> Overrides(first, second)
  {
    if Overrides(first, second) {
      forall m: Fields | LooksLikeNetDevice(m)
        ensures RewriteNetDevice(RewriteNetDevice(m, first), second) == RewriteNetDevice(m, second)
      {
        NetDeviceRetargets(m, first, second);
      }
    } else {
      var m := NetDeviceShowsThrough(first, second);
    }
  }

  // ---- The tree ----

  function Rewrite(v: Json, t: Target): Json
    requires Usable(t)
  {
    match v
    case Obj(m) =>
      if LooksLikeNetDevice(m) then Obj(RewriteNetDevice(m, t.config))
      else Obj(map k | k in m :: if k == "fs" then Null else Rewrite(m[k], t))
    case Arr(items) => Arr(seq(|items|, i requires 0 <= i < |items| => Rewrite(items[i], t)))
    case Str(s) => Str(RewritePath(s, Replacements(t)))
    case _ => v
  }

  /** The recursion as written: each object and array is updated entry by entry, an object in
      whatever order its entries come. */
  method RewriteInPlace(v: Json, t: Target) returns (r: Json)
    requires Usable(t)
    ensures r == Rewrite(v, t)
    decreases v, 1
  {
    match v {
      case Obj(m) =>
        if LooksLikeNetDevice(m) {
          return Obj(RewriteNetDevice(m, t.config));
        }
        r := RewriteEntries(m, t);
      case Arr(items) =>
        r := RewriteItems(items, t);
      case Str(s) =>
        TableKeyShapes(t);
        var path := RewritePathLoop(s, Replacements(t));
        return Str(path);
      case _ =>
        return v;
    }
  }

  method RewriteEntries(m: Fields, t: Target) returns (r: Json)
    requires Usable(t) && !LooksLikeNetDevice(m)
    ensures r == Rewrite(Obj(m), t)
    decreases Obj(m), 0
  {
    hide Usable, LooksLikeNetDevice, Rewrite;
    var typed, left := m, m.Keys;
    while left != {}
      invariant left <= m.Keys && typed.Keys == m.Keys
      invariant forall k :: k in left ==> typed[k] == m[k]
      invariant forall k :: k in m && k !in left ==> typed[k] == if k == "fs" then Null else Rewrite(m[k], t)
      decreases left
    {
      var key :| key in left;
      left := left - {key};
      if key == "fs" {
        typed := typed[key := Null];
        continue;
      }
      var child := RewriteInPlace(m[key], t);
      typed := typed[key := child];
    }
    EntriesMakeObject(m, typed, t);
    r := Obj(typed);
  }

  lemma EntriesMakeObject(m: Fields, typed: Fields, t: Target)
    requires Usable(t) && !LooksLikeNetDevice(m) && typed.Keys == m.Keys
    requires forall k :: k in m ==> typed[k] == if k == "fs" then Null else Rewrite(m[k], t)
    ensures Obj(typed) == Rewrite(Obj(m), t)
  {
    ObjectIsRewritten(m, t);
    hide Rewrite, LooksLikeNetDevice, Usable;
    assert typed == map k | k in m :: if k == "fs" then Null else Rewrite(m[k], t);
  }

  lemma ObjectIsRewritten(m: Fields, t: Target)
    requires Usable(t) && !LooksLikeNetDevice(m)
    ensures Rewrite(Obj(m), t) == Obj(map k | k in m :: if k == "fs" then Null else Rewrite(m[k], t))
  {
  }

  method RewriteItems(items: seq<Json>, t: Target) returns (r: Json)
    requires Usable(t)
    ensures r == Rewrite(Arr(items), t)
    decreases Arr(items), 0
  {
    hide Usable;
    var typed := items;
    for i := 0 to |items|
      invariant |typed| == |items|
      invariant forall k :: 0 <= k < i ==> typed[k] == Rewrite(items[k], t)
      invariant forall k :: i <= k < |items| ==> typed[k] == items[k]
    {
      var child := RewriteInPlace(items[i], t);
      typed := typed[i := child];
    }
    r := Arr(typed);
  }

  /** A table's keys: the snapshot directory with its slash, and ordinary file names. */
  lemma TableKeyShapes(t: Target)
    requires Usable(t)
    ensures SNAPSHOT_DIR_KEY in TableKeys(t) && !Ordinary(SNAPSHOT_DIR_KEY)
    ensures forall k :: k in TableKeys(t) ==> KeyShape(k) && (k == SNAPSHOT_DIR_KEY || Ordinary(k))
  {
    assert SNAPSHOT_DIR_KEY[|SNAPSHOT_DIR_KEY| - 1] in SNAPSHOT_DIR_KEY;
    assert NoSlash(SNAPSHOT_DIR_KEY[..|SNAPSHOT_DIR_KEY| - 1]);
    forall k | k in TableKeys(t)
      ensures KeyShape(k) && (k == SNAPSHOT_DIR_KEY || Ordinary(k))
    {
      if k in VM_FILES + RESTORE_FILES {
        FixedNamesAreOrdinary(k);
      }
    }
  }

  /** A table's values: the restore directory for the directory key, a path to a file of the same
      name in one of the two directories for every other key. */
  lemma ReplacementShape(t: Target, k: string)
    requires Usable(t) && k in TableKeys(t)
    ensures k == SNAPSHOT_DIR_KEY ==> Replacements(t)[k] == t.restoreDir
    ensures k != SNAPSHOT_DIR_KEY ==>
              Ordinary(k) && (Replacements(t)[k] == Join(t.vmDir, k) || Replacements(t)[k] == Join(t.restoreDir, k))
  {
    TableKeyShapes(t);
    hide VM_FILES, RESTORE_FILES, SNAPSHOT_DIR_KEY, TableKeys, Join;
  }

  // ---- Idempotence ----

  /** The replacement of a file entry is a path to a file of the same name. */
  lemma ReplacementKeepsName(t: Target, k: string)
    requires Usable(t) && k in TableKeys(t) && k != SNAPSHOT_DIR_KEY
    ensures var r := Replacements(t)[k];
            r != "" && KeyOf(r) == k && !(FILE_SCHEME <= r)
  {
    ReplacementShape(t, k);
    hide TableKeys, Replacement, Replacements, Join, LastElement;
    LastOfJoin(t.vmDir, k);
    LastOfJoin(t.restoreDir, k);
    JoinHasNoScheme(t.vmDir, k);
    JoinHasNoScheme(t.restoreDir, k);
  }

  lemma TrimAdded(r: string)
    ensures TrimPrefix(FILE_SCHEME + r, FILE_SCHEME) == r
  {
  }

  /** A table's effect on a path, with or without the scheme, that has no scheme of its own. */
  lemma RewriteBarePath(p: string, table: map<string, string>)
    requires p != "" && !(FILE_SCHEME <= p)
    ensures RewritePath(p, table) == if KeyOf(p) in table then table[KeyOf(p)] else p
    ensures RewritePath(FILE_SCHEME + p, table)
         == FILE_SCHEME + (if KeyOf(p) in table then table[KeyOf(p)] else p)
  {
    hide KeyOf;
    TrimAdded(p);
    if KeyOf(p) in table {
      assert "" + table[KeyOf(p)] == table[KeyOf(p)];
    }
  }

  /** The restore directory is not itself named like a file of the table, or already is that file. */
  predicate Settled(t: Target)
    requires Usable(t)
  {
    var name := LastElement(t.restoreDir);
    name in TableKeys(t) ==> Replacements(t)[name] == t.restoreDir
  }

  /** A bare snapshot directory reference becomes the restore directory; what a second pass does to
      that depends on the directory's name alone. */
  lemma DirectoryKey(dir: string, t: Target)
    requires Usable(t) && CleanDir(dir)
    ensures KeyOf(dir) in TableKeys(t) <==> LastElement(dir) in TableKeys(t)
    ensures KeyOf(dir) in TableKeys(t) ==> KeyOf(dir) == LastElement(dir)
  {
    hide TableKeys;
    if dir == "/" {
      assert LastElement(dir[..0]) == "" && KeyOf(dir) == "/" && LastElement(dir) == "";
      RootIsNoKey(t);
    }
  }

  lemma RootIsNoKey(t: Target)
    requires Usable(t)
    ensures "/" !in TableKeys(t) && "" !in TableKeys(t)
  {
    TableKeyShapes(t);
    assert |SNAPSHOT_DIR_KEY| > 1 && '/' in "/";
    hide TableKeys, SNAPSHOT_DIR_KEY;
  }

  lemma RestoreDirAgain(t: Target)
    requires Usable(t)
    ensures RewritePath(t.restoreDir, Replacements(t)) == t.restoreDir <==> Settled(t)
    ensures Settled(t) ==> RewritePath(FILE_SCHEME + t.restoreDir, Replacements(t)) == FILE_SCHEME + t.restoreDir
  {
    hide TableKeys, Replacement, LastElement, KeyOf, RewritePath;
    DirHasNoScheme(t.restoreDir);
    RewriteBarePath(t.restoreDir, Replacements(t));
    DirectoryKey(t.restoreDir, t);
  }

  lemma PathIdempotent(s: string, t: Target)
    requires Usable(t) && Settled(t)
    ensures RewritePath(RewritePath(s, Replacements(t)), Replacements(t)) == RewritePath(s, Replacements(t))
  {
    hide TableKeys, Replacement, Replacements, LastElement, KeyOf, Settled;
    var table := Replacements(t);
    var clean := TrimPrefix(s, FILE_SCHEME);
    if clean != "" && KeyOf(clean) in table {
      var k := KeyOf(clean);
      assert RewritePath(s, table) == FILE_SCHEME + table[k] || RewritePath(s, table) == table[k] by {
        assert "" + table[k] == table[k];
      }
      if k == SNAPSHOT_DIR_KEY {
        ReplacementShape(t, k);
        RestoreDirAgain(t);
      } else {
        ReplacementKeepsName(t, k);
        RewriteBarePath(table[k], table);
      }
    }
  }

  lemma {:induction false} TreeIdempotent(v: Json, t: Target)
    requires Usable(t) && Settled(t)
    ensures Rewrite(Rewrite(v, t), t) == Rewrite(v, t)
    decreases v
  {
    hide LooksLikeNetDevice, RewriteNetDevice, Usable, Settled;
    match v
    case Obj(m) =>
      if LooksLikeNetDevice(m) {
        NetDeviceStays(m, t.config);
        NetDeviceIdempotent(m, t.config);
      } else {
        OtherObjectStays(m, t);
        var r := Rewrite(v, t).fields;
        forall k | k in m && k != "fs"
          ensures Rewrite(r[k], t) == r[k]
        {
          TreeIdempotent(m[k], t);
        }
        assert Rewrite(Obj(r), t).fields == r;
      }
    case Arr(items) =>
      forall i | 0 <= i < |items|
        ensures Rewrite(Rewrite(items[i], t), t) == Rewrite(items[i], t)
      {
        TreeIdempotent(items[i], t);
      }
      assert Rewrite(Rewrite(v, t), t).items == Rewrite(v, t).items;
    case Str(s) => PathIdempotent(s, t);
    case _ =>
  }

  /** Rewriting the entries of an object that is no network device does not make it one. */
  lemma OtherObjectStays(m: Fields, t: Target)
    requires Usable(t) && !LooksLikeNetDevice(m)
    ensures Rewrite(Obj(m), t).Obj? && !LooksLikeNetDevice(Rewrite(Obj(m), t).fields)
    ensures Rewrite(Obj(m), t).fields.Keys == m.Keys
  {
    var r := Rewrite(Obj(m), t).fields;
    assert r.Keys == m.Keys;
    if "vhost_user" in m {
      assert |"vhost_user"| != |"fs"|;
      assert r["vhost_user"] == Rewrite(m["vhost_user"], t);
    }
  }

  /** Rewriting twice for the same VM is rewriting once, on every tree, exactly when the restore
      directory is not named like a file of the table (a disk of that name would do it). */
  lemma IdempotentIff(t: Target)
    requires Usable(t)
    ensures (forall v :: Rewrite(Rewrite(v, t), t) == Rewrite(v, t)) <==> Settled(t)
  {
    if Settled(t) {
      forall v
        ensures Rewrite(Rewrite(v, t), t) == Rewrite(v, t)
      {
        TreeIdempotent(v, t);
      }
    } else {
      DirectoryLeafMoves(t);
    }
  }

  lemma DirectoryLeafMoves(t: Target)
    requires Usable(t) && !Settled(t)
    ensures var v := Str(SNAPSHOT_DIR_KEY); Rewrite(Rewrite(v, t), t) != Rewrite(v, t)
  {
    DirectoryLeaf(t);
    RestoreDirAgain(t);
    hide Usable, Settled, RewritePath, Replacements, SNAPSHOT_DIR_KEY;
    assert Rewrite(Str(SNAPSHOT_DIR_KEY), t) == Str(t.restoreDir);
  }

  lemma DirectoryLeaf(t: Target)
    requires Usable(t)
    ensures RewritePath(SNAPSHOT_DIR_KEY, Replacements(t)) == t.restoreDir
  {
    TableKeyShapes(t);
    OnlyOneKeyMatches(SNAPSHOT_DIR_KEY, SNAPSHOT_DIR_KEY);
    ReplacementShape(t, SNAPSHOT_DIR_KEY);
    assert SNAPSHOT_DIR_KEY != "" && SNAPSHOT_DIR_KEY[0] != FILE_SCHEME[0];
    hide SNAPSHOT_DIR_KEY, TableKeys, Replacement, KeyOf;
    RewriteBarePath(SNAPSHOT_DIR_KEY, Replacements(t));
  }

  /** The targets that creating and starting a VM rewrite for: the restore directory is the one of
      that name in the VM directory. */
  predicate FromManager(t: Target)
    requires Usable(t)
  {
    t.restoreDir == Join(t.vmDir, RESTORE_DIR_NAME)
  }

  /** Of those, the settled ones are exactly the ones without a disk of the directory's name. A VM with
      such a disk is never created: the path of the disk is the directory itself. */
  lemma ManagersTargetSettledIff(t: Target)
    requires Usable(t) && FromManager(t)
    ensures Settled(t) <==> RESTORE_DIR_NAME !in DiskNames(t.config)
  {
    NameIsNoFixedKey();
    LastOfJoin(t.vmDir, RESTORE_DIR_NAME);
    hide VM_FILES, RESTORE_FILES, RESTORE_DIR_NAME, SNAPSHOT_DIR_KEY, LastElement, Usable;
    if RESTORE_DIR_NAME in DiskNames(t.config) {
      assert Replacements(t)[RESTORE_DIR_NAME] == Join(t.restoreDir, RESTORE_DIR_NAME);
      assert |Join(t.restoreDir, RESTORE_DIR_NAME)| > |t.restoreDir|;
    }
  }

  lemma NameIsNoFixedKey()
    ensures Ordinary(RESTORE_DIR_NAME)
    ensures RESTORE_DIR_NAME !in VM_FILES + RESTORE_FILES + {SNAPSHOT_DIR_KEY}
  {
    assert RESTORE_DIR_NAME[20] == 'p' && "cloud-hypervisor-vsock.sock"[20] != 'p';
    assert |RESTORE_DIR_NAME| == 25;
  }

  /** What happens in practice: the rewrite at creation and the one at start make the same tree. */
  lemma RewriteAtStartIsHarmless(v: Json, t: Target)
    requires Usable(t) && FromManager(t) && RESTORE_DIR_NAME !in DiskNames(t.config)
    ensures Rewrite(Rewrite(v, t), t) == Rewrite(v, t)
  {
    ManagersTargetSettledIff(t);
    TreeIdempotent(v, t);
  }

  /** For such a disk it would not be: in every VM directory there is a target of that form that is
      not settled. */
  lemma UnsettledTarget(vmDir: string)
    requires CleanDir(vmDir)
    ensures Ordinary(RESTORE_DIR_NAME)
    ensures var path := Join(vmDir, RESTORE_DIR_NAME);
            var t := Target(vmDir, path, Config([path], "", "", "", "", ""));
            Usable(t) && FromManager(t) && !Settled(t)
  {
    NameIsNoFixedKey();
    hide RESTORE_DIR_NAME, CleanDir, Join, Base, Ordinary;
    var path := Join(vmDir, RESTORE_DIR_NAME);
    var t := Target(vmDir, path, Config([path], "", "", "", "", ""));
    JoinIsClean(vmDir, RESTORE_DIR_NAME);
    BaseOfJoin(vmDir, RESTORE_DIR_NAME);
    assert path in DiskPaths(t.config);
    assert DiskNames(t.config) == {RESTORE_DIR_NAME};
    ManagersTargetSettledIff(t);
  }

  // ---- Retargeting ----

  /** No path in the tree is a reference to the snapshot directory itself, with a trailing slash. */
  predicate NoDirectoryLeaf(v: Json) {
    match v
    case Obj(m) => LooksLikeNetDevice(m) || forall k :: k in m && k != "fs" ==> NoDirectoryLeaf(m[k])
    case Arr(items) => forall i :: 0 <= i < |items| ==> NoDirectoryLeaf(items[i])
    case Str(s) => KeyOf(TrimPrefix(s, FILE_SCHEME)) != SNAPSHOT_DIR_KEY
    case _ => true
  }

  lemma PathRetargets(s: string, first: Target, second: Target)
    requires Usable(first) && Usable(second) && DiskNames(first.config) == DiskNames(second.config)
    requires KeyOf(TrimPrefix(s, FILE_SCHEME)) != SNAPSHOT_DIR_KEY
    ensures RewritePath(RewritePath(s, Replacements(first)), Replacements(second)) == RewritePath(s, Replacements(second))
  {
    hide Replacement, Replacements, LastElement, KeyOf, DiskNames, VM_FILES, RESTORE_FILES, SNAPSHOT_DIR_KEY;
    var clean := TrimPrefix(s, FILE_SCHEME);
    if clean != "" && KeyOf(clean) in TableKeys(first) {
      var k := KeyOf(clean);
      var table := Replacements(first);
      assert RewritePath(s, table) == if FILE_SCHEME <= s then FILE_SCHEME + table[k] else table[k] by {
        assert "" + table[k] == table[k];
      }
      ReplacementKeepsName(first, k);
      RewriteBarePath(table[k], Replacements(second));
      assert "" + Replacements(second)[k] == Replacements(second)[k];
    }
  }

  /** Rewriting for one VM and then for another equals rewriting for the second alone. */
  lemma {:induction false} Retargets(v: Json, first: Target, second: Target)
    requires Usable(first) && Usable(second) && DiskNames(first.config) == DiskNames(second.config)
    requires Overrides(first.config, second.config)
    requires NoDirectoryLeaf(v)
    ensures Rewrite(Rewrite(v, first), second) == Rewrite(v, second)
    decreases v
  {
    hide LooksLikeNetDevice, RewriteNetDevice, Usable, Overrides, DiskNames;
    match v
    case Obj(m) =>
      if LooksLikeNetDevice(m) {
        NetDeviceStays(m, first.config);
        NetDeviceRetargets(m, first.config, second.config);
      } else {
        OtherObjectStays(m, first);
        var r := Rewrite(v, first).fields;
        forall k | k in m && k != "fs"
          ensures Rewrite(r[k], second) == Rewrite(m[k], second)
        {
          Retargets(m[k], first, second);
        }
        assert Rewrite(Obj(r), second).fields == Rewrite(v, second).fields;
      }
    case Arr(items) =>
      forall i | 0 <= i < |items|
        ensures Rewrite(Rewrite(items[i], first), second) == Rewrite(items[i], second)
      {
        Retargets(items[i], first, second);
      }
      assert Rewrite(Rewrite(v, first), second).items == Rewrite(v, second).items;
    case Str(s) => PathRetargets(s, first, second);
    case _ =>
  }

  /** What becomes of a directory leaf, with or without the scheme. */
  lemma LeafBecomesDirectory(s: string, t: Target)
    requires Usable(t) && KeyOf(TrimPrefix(s, FILE_SCHEME)) == SNAPSHOT_DIR_KEY
    ensures RewritePath(s, Replacements(t)) == if FILE_SCHEME <= s then FILE_SCHEME + t.restoreDir else t.restoreDir
  {
    TableKeyShapes(t);
    ReplacementShape(t, SNAPSHOT_DIR_KEY);
    var clean := TrimPrefix(s, FILE_SCHEME);
    assert clean != "" by { assert LastElement("") == "" && |SNAPSHOT_DIR_KEY| > 0; }
    assert "" + t.restoreDir == t.restoreDir;
    hide SNAPSHOT_DIR_KEY, TableKeys, Replacement, KeyOf, FILE_SCHEME;
  }

  /** A directory leaf is retargeted only if both directories are the same. */
  lemma DirectoryLeafRetargetsIff(s: string, first: Target, second: Target)
    requires Usable(first) && Usable(second) && LastElement(first.restoreDir) !in TableKeys(second)
    requires KeyOf(TrimPrefix(s, FILE_SCHEME)) == SNAPSHOT_DIR_KEY
    ensures RewritePath(RewritePath(s, Replacements(first)), Replacements(second)) == RewritePath(s, Replacements(second))
            <==> first.restoreDir == second.restoreDir
  {
    LeafBecomesDirectory(s, first);
    LeafBecomesDirectory(s, second);
    DirHasNoScheme(first.restoreDir);
    DirectoryKey(first.restoreDir, second);
    hide TableKeys, Replacement, Replacements, LastElement, KeyOf, RewritePath;
    RewriteBarePath(first.restoreDir, Replacements(second));
    TrimAdded(first.restoreDir);
    TrimAdded(second.restoreDir);
  }

  /** Rewritten for the second VM after the first, the tree is as if it had never been the first's. */
  predicate Retargeted(v: Json, first: Target, second: Target)
    requires Usable(first) && Usable(second)
  {
    Rewrite(Rewrite(v, first), second) == Rewrite(v, second)
  }

  lemma MapsAgreeIff(a: Fields, b: Fields)
    requires a.Keys == b.Keys && ("fs" in a ==> a["fs"] == b["fs"])
    ensures a == b <==> forall k :: k in a && k != "fs" ==> a[k] == b[k]
  {
  }

  lemma ObjectRetargetsIff(m: Fields, first: Target, second: Target)
    requires Usable(first) && Usable(second) && !LooksLikeNetDevice(m)
    ensures Retargeted(Obj(m), first, second) <==> forall k :: k in m && k != "fs" ==> Retargeted(m[k], first, second)
  {
    OtherObjectStays(m, first);
    ObjectIsRewritten(m, first);
    var r := map k | k in m :: if k == "fs" then Null else Rewrite(m[k], first);
    ObjectIsRewritten(r, second);
    ObjectIsRewritten(m, second);
    var twice := map k | k in r :: if k == "fs" then Null else Rewrite(r[k], second);
    var once := map k | k in m :: if k == "fs" then Null else Rewrite(m[k], second);
    hide Rewrite, LooksLikeNetDevice, Usable;
    assert Retargeted(Obj(m), first, second) <==> twice == once;
    forall k | k in m && k != "fs" ensures twice[k] == once[k] <==> Retargeted(m[k], first, second) {
    }
    hide Retargeted;
    MapsAgreeIff(twice, once);
  }

  lemma ArrayRetargetsIff(items: seq<Json>, first: Target, second: Target)
    requires Usable(first) && Usable(second)
    ensures Retargeted(Arr(items), first, second) <==> forall i :: 0 <= i < |items| ==> Retargeted(items[i], first, second)
  {
    var twice, once := Rewrite(Rewrite(Arr(items), first), second).items, Rewrite(Arr(items), second).items;
    assert forall i :: 0 <= i < |items| ==> twice[i] == Rewrite(Rewrite(items[i], first), second);
    assert forall i :: 0 <= i < |items| ==> once[i] == Rewrite(items[i], second);
    hide Rewrite, Usable;
    assert twice == once <==> forall i :: 0 <= i < |items| ==> twice[i] == once[i];
  }

  /** Nothing of the first VM shows through anywhere: no reference to the directory itself, unless both
      have the same, and no network device that keeps something of the first settings. */
  predicate Traceless(v: Json, first: Target, second: Target) {
    match v
    case Obj(m) =>
      if LooksLikeNetDevice(m) then Hides(m, first.config, second.config)
      else forall k :: k in m && k != "fs" ==> Traceless(m[k], first, second)
    case Arr(items) => forall i :: 0 <= i < |items| ==> Traceless(items[i], first, second)
    case Str(s) => KeyOf(TrimPrefix(s, FILE_SCHEME)) != SNAPSHOT_DIR_KEY || first.restoreDir == second.restoreDir
    case _ => true
  }

  /** For every tree and any two targets with the same disks, whatever their network settings:
      rewriting for one VM and then for another equals rewriting for the second alone exactly when
      the tree keeps no trace of the first. */
  lemma {:induction false} RetargetsIff(v: Json, first: Target, second: Target)
    requires Usable(first) && Usable(second) && DiskNames(first.config) == DiskNames(second.config)
    requires LastElement(first.restoreDir) !in TableKeys(second)
    ensures Retargeted(v, first, second) <==> Traceless(v, first, second)
    decreases v
  {
    hide LooksLikeNetDevice, Usable, Hides, DiskNames, TableKeys, LastElement, Rewrite, Retargeted, Traceless;
    TraceInside(v, first, second);
    match v
    case Obj(m) =>
      if LooksLikeNetDevice(m) {
        DeviceRetargetsIff(m, first, second);
      } else {
        forall k | k in m && k != "fs"
          ensures Retargeted(m[k], first, second) <==> Traceless(m[k], first, second)
        {
          RetargetsIff(m[k], first, second);
        }
        ObjectRetargetsIff(m, first, second);
      }
    case Arr(items) =>
      forall i | 0 <= i < |items|
        ensures Retargeted(items[i], first, second) <==> Traceless(items[i], first, second)
      {
        RetargetsIff(items[i], first, second);
      }
      ArrayRetargetsIff(items, first, second);
    case Str(s) => StringRetargetsIff(s, first, second);
    case _ => ScalarRetargets(v, first, second);
  }

  lemma TraceInside(v: Json, first: Target, second: Target)
    ensures v.Obj? ==>
              (Traceless(v, first, second) <==>
                 if LooksLikeNetDevice(v.fields) then Hides(v.fields, first.config, second.config)
                 else forall k :: k in v.fields && k != "fs" ==> Traceless(v.fields[k], first, second))
    ensures v.Arr? ==> (Traceless(v, first, second) <==> forall i :: 0 <= i < |v.items| ==> Traceless(v.items[i], first, second))
  {
  }

  /** Where the second network settings override the first, only the directory leaves matter. */
  lemma {:induction false} TracelessIfOverridden(v: Json, first: Target, second: Target)
    requires Overrides(first.config, second.config)
    ensures Traceless(v, first, second) <==> NoDirectoryLeaf(v) || first.restoreDir == second.restoreDir
    decreases v
  {
    hide LooksLikeNetDevice, Hides, Overrides, Traceless, NoDirectoryLeaf;
    TraceInside(v, first, second);
    NoLeafInside(v);
    match v
    case Obj(m) =>
      if LooksLikeNetDevice(m) {
        NetDeviceRetargets(m, first.config, second.config);
      } else {
        forall k | k in m && k != "fs"
          ensures Traceless(m[k], first, second) <==> NoDirectoryLeaf(m[k]) || first.restoreDir == second.restoreDir
        {
          TracelessIfOverridden(m[k], first, second);
        }
      }
    case Arr(items) =>
      forall i | 0 <= i < |items|
        ensures Traceless(items[i], first, second) <==> NoDirectoryLeaf(items[i]) || first.restoreDir == second.restoreDir
      {
        TracelessIfOverridden(items[i], first, second);
      }
    case _ => LeafTrace(v, first, second);
  }

  lemma LeafTrace(v: Json, first: Target, second: Target)
    requires !v.Obj? && !v.Arr?
    ensures Traceless(v, first, second) <==> NoDirectoryLeaf(v) || first.restoreDir == second.restoreDir
  {
    hide KeyOf, TrimPrefix, SNAPSHOT_DIR_KEY;
  }

  lemma NoLeafInside(v: Json)
    ensures v.Obj? ==>
              (NoDirectoryLeaf(v) <==> LooksLikeNetDevice(v.fields) || forall k :: k in v.fields && k != "fs" ==> NoDirectoryLeaf(v.fields[k]))
    ensures v.Arr? ==> (NoDirectoryLeaf(v) <==> forall i :: 0 <= i < |v.items| ==> NoDirectoryLeaf(v.items[i]))
  {
  }

  lemma DeviceRetargetsIff(m: Fields, first: Target, second: Target)
    requires Usable(first) && Usable(second) && LooksLikeNetDevice(m)
    ensures Retargeted(Obj(m), first, second) <==> Hides(m, first.config, second.config)
  {
    NetDeviceStays(m, first.config);
    HiddenIff(m, first.config, second.config);
    hide LooksLikeNetDevice, RewriteNetDevice, Usable, Hides;
  }

  lemma StringRetargetsIff(s: string, first: Target, second: Target)
    requires Usable(first) && Usable(second) && DiskNames(first.config) == DiskNames(second.config)
    requires LastElement(first.restoreDir) !in TableKeys(second)
    ensures Retargeted(Str(s), first, second) <==> Traceless(Str(s), first, second)
  {
    hide *;
    LeafTrace(Str(s), first, second);
    StringParts(s, first, second);
    if NoDirectoryLeaf(Str(s)) {
      PathRetargets(s, first, second);
    } else {
      DirectoryLeafRetargetsIff(s, first, second);
    }
  }

  lemma StringParts(s: string, first: Target, second: Target)
    requires Usable(first) && Usable(second)
    ensures NoDirectoryLeaf(Str(s)) <==> KeyOf(TrimPrefix(s, FILE_SCHEME)) != SNAPSHOT_DIR_KEY
    ensures Retargeted(Str(s), first, second) <==>
              RewritePath(RewritePath(s, Replacements(first)), Replacements(second)) == RewritePath(s, Replacements(second))
  {
    hide Usable, RewritePath, Replacements, KeyOf, TrimPrefix, FILE_SCHEME, SNAPSHOT_DIR_KEY;
  }

  lemma ScalarRetargets(v: Json, first: Target, second: Target)
    requires Usable(first) && Usable(second) && (v.Null? || v.Bool? || v.Number?)
    ensures Retargeted(v, first, second) && Traceless(v, first, second)
  {
    hide Usable;
  }

  /** For the targets of two VMs as the manager builds them nothing else is needed. */
  lemma ManagersRetargetIff(v: Json, first: Target, second: Target)
    requires Usable(first) && Usable(second) && DiskNames(first.config) == DiskNames(second.config)
    requires FromManager(first) && RESTORE_DIR_NAME !in DiskNames(second.config)
    ensures Retargeted(v, first, second) <==> Traceless(v, first, second)
    ensures Overrides(first.config, second.config) ==>
              (Retargeted(v, first, second) <==> NoDirectoryLeaf(v) || first.restoreDir == second.restoreDir)
  {
    NameIsNoFixedKey();
    LastOfJoin(first.vmDir, RESTORE_DIR_NAME);
    hide Retargeted, NoDirectoryLeaf, Traceless, Usable, Overrides, DiskNames, VM_FILES, RESTORE_FILES, SNAPSHOT_DIR_KEY, RESTORE_DIR_NAME, LastElement;
    RetargetsIff(v, first, second);
    if Overrides(first.config, second.config) {
      TracelessIfOverridden(v, first, second);
    }
  }

  /** A target as the manager builds it, for a VM with one disk and no network settings. */
  function PlainTarget(vmDir: string): Target
    requires CleanDir(vmDir)
  {
    NameIsNoFixedKey();
    Target(vmDir, Join(vmDir, RESTORE_DIR_NAME), Config(["disk"], "", "", "", "", ""))
  }

  lemma PlainTargetIsUsable(vmDir: string)
    requires CleanDir(vmDir)
    ensures var t := PlainTarget(vmDir); Usable(t) && FromManager(t) && DiskNames(t.config) == {"disk"}
  {
    NameIsNoFixedKey();
    JoinIsClean(vmDir, RESTORE_DIR_NAME);
    assert Ordinary("disk");
    hide RESTORE_DIR_NAME, CleanDir, Join, Base, Ordinary;
    OneDiskName("disk");
  }

  lemma OneDiskName(name: string)
    requires Ordinary(name)
    ensures DiskNames(Config([name], "", "", "", "", "")) == {name}
  {
    BaseOfName(name);
    hide Base;
    assert DiskPaths(Config([name], "", "", "", "", "")) == [name];
    assert [name][0] == name;
  }

  /** A tree that keeps the first VM's directory. */
  lemma DirectoryLeafStays()
    ensures CleanDir("/a") && CleanDir("/b")
    ensures var first, second := PlainTarget("/a"), PlainTarget("/b");
            Usable(first) && Usable(second) && !Retargeted(Str(SNAPSHOT_DIR_KEY), first, second)
  {
    TwoDirectories();
    hide *;
    PlainTargetIsUsable("/a");
    PlainTargetIsUsable("/b");
    DirectoryKeyIsLeaf();
    ManagersRetargetIff(Str(SNAPSHOT_DIR_KEY), PlainTarget("/a"), PlainTarget("/b"));
  }

  lemma TwoDirectories()
    ensures CleanDir("/a") && CleanDir("/b") && PlainTarget("/a").restoreDir != PlainTarget("/b").restoreDir
    ensures RESTORE_DIR_NAME !in {"disk"} && Overrides(PlainTarget("/a").config, PlainTarget("/b").config)
  {
    assert |RESTORE_DIR_NAME| > |"disk"|;
    NameIsNoFixedKey();
    hide RESTORE_DIR_NAME;
    assert PlainTarget("/a").restoreDir[1] == 'a' && PlainTarget("/b").restoreDir[1] == 'b';
  }

  lemma DirectoryKeyIsLeaf()
    ensures !NoDirectoryLeaf(Str(SNAPSHOT_DIR_KEY))
  {
    NameIsNoFixedKey();
    assert RESTORE_DIR_NAME[0] == 'c' && SNAPSHOT_DIR_KEY == RESTORE_DIR_NAME + "/";
    hide RESTORE_DIR_NAME, SNAPSHOT_DIR_KEY, KeyOf, TrimPrefix, FILE_SCHEME;
    OwnKey(RESTORE_DIR_NAME);
  }

  lemma OwnKey(stem: string)
    requires NoSlash(stem) && stem != "" && stem[0] != 'f'
    ensures KeyOf(TrimPrefix(stem + "/", FILE_SCHEME)) == stem + "/"
  {
    assert FILE_SCHEME[0] == 'f';
    hide FILE_SCHEME, KeyOf;
    assert (stem + "/")[0] == stem[0];
    SlashedKey(stem + "/", stem);
  }
}
