/**
 The count of log blocks in use: taken by a nested scan of the log directory at start, kept up to
 date by creating and removing blocks.
 */
module BlockAccounting {
  import opened Common

  type Name = string

  const BLOCK_SIZE := 64 * 1024 * 1024
  const FLASHBACK_SUFFIX := ".flashback"

  /** What reading a directory yields, in the order it yields it. */
  datatype Node = File(name: Name, size: int) | Dir(name: Name, entries: seq<Node>)

  /** A block: the log stream's directory, `log` or `meta`, and the file name. */
  datatype Path = Path(ls: Name, sub: Name, block: Name)

  predicate IsDigit(c: char) { '0' <= c <= '9' }

  predicate IsNumber(s: Name) { forall i :: 0 <= i < |s| ==> IsDigit(s[i]) }

  predicate IsFlashbackBlock(s: Name) {
    exists i :: 0 <= i <= |s| && FLASHBACK_SUFFIX <= s[i..]
  }

  predicate IsLsName(s: Name) {
    0 < |s| && '1' <= s[0] <= '9' && IsNumber(s)
  }

  predicate IsDot(n: Node) { n.name == "." || n.name == ".." }

  // ---------- which trees are ours, and which blocks they hold ----------

  ghost predicate BlockName(s: Name) {
    || (forall i :: 0 <= i < |s| ==> '0' <= s[i] <= '9')
    || exists i :: 0 <= i <= |s| && ".flashback" <= s[i..]
  }

  ghost predicate StreamName(s: Name) {
    0 < |s| && '1' <= s[0] <= '9' && forall i :: 0 <= i < |s| ==> '0' <= s[i] <= '9'
  }

  ghost predicate BlockDirOk(entries: seq<Node>) {
    forall d :: 0 <= d < |entries| ==> entries[d].name in {".", ".."} || BlockName(entries[d].name)
  }

  ghost predicate StreamDirOk(entries: seq<Node>) {
    forall c :: 0 <= c < |entries| ==>
                  || entries[c].name in {".", ".."}
                  || (entries[c].Dir? && entries[c].name in {"log", "meta"} && BlockDirOk(entries[c].entries))
  }

  ghost predicate TenantDirOk(entries: seq<Node>) {
    forall b :: 0 <= b < |entries| ==>
                  || entries[b].name in {".", ".."}
                  || (entries[b].Dir? && entries[b].name == "tmp_dir")
                  || (entries[b].Dir? && StreamName(entries[b].name) && StreamDirOk(entries[b].entries))
  }

  /** A log directory that holds only what the log service puts there. */
  ghost predicate WellFormed(entries: seq<Node>) {
    forall a :: 0 <= a < |entries| ==>
                  || entries[a].name in {".", ".."}
                  || (entries[a].Dir? && entries[a].name == "log_pool")
                  || (entries[a].Dir? && entries[a].name == "sys" && TenantDirOk(entries[a].entries))
  }

  /** No directory lists a name twice. */
  ghost predicate DistinctNames(entries: seq<Node>) {
    && (forall i, j :: 0 <= i < j < |entries| ==> entries[i].name != entries[j].name)
    && (forall k :: 0 <= k < |entries| && entries[k].Dir? ==> DistinctNames(entries[k].entries))
  }

  /** The blocks of one stream: what stands in its `log` and in its `meta` directory. */
  ghost function BlocksOfStream(ls: Name, entries: seq<Node>): set<Path> {
    set c, d |
      && 0 <= c < |entries| && entries[c].Dir? && entries[c].name in {"log", "meta"}
      && 0 <= d < |entries[c].entries| && entries[c].entries[d].name !in {".", ".."}
      :: Path(ls, entries[c].name, entries[c].entries[d].name)
  }

  /** The blocks of all the streams in a tenant's directory. */
  ghost function BlocksOfTenant(entries: seq<Node>): set<Path> {
    set b, c, d |
      && 0 <= b < |entries| && entries[b].Dir? && StreamName(entries[b].name)
      && 0 <= c < |entries[b].entries| && entries[b].entries[c].Dir?
      && entries[b].entries[c].name in {"log", "meta"}
      && 0 <= d < |entries[b].entries[c].entries|
      && entries[b].entries[c].entries[d].name !in {".", ".."}
      :: Path(entries[b].name, entries[b].entries[c].name, entries[b].entries[c].entries[d].name)
  }

  /** The blocks in a log directory: those of the streams under `sys`. */
  ghost function BlocksOnDisk(entries: seq<Node>): set<Path> {
    set a, b, c, d |
      && 0 <= a < |entries| && entries[a].Dir? && entries[a].name == "sys"
      && 0 <= b < |entries[a].entries| && entries[a].entries[b].Dir?
      && StreamName(entries[a].entries[b].name)
      && 0 <= c < |entries[a].entries[b].entries| && entries[a].entries[b].entries[c].Dir?
      && entries[a].entries[b].entries[c].name in {"log", "meta"}
      && 0 <= d < |entries[a].entries[b].entries[c].entries|
      && entries[a].entries[b].entries[c].entries[d].name !in {".", ".."}
      :: Path(entries[a].entries[b].name, entries[a].entries[b].entries[c].name,
              entries[a].entries[b].entries[c].entries[d].name)
  }

  // ---------- the blocks in the order in which a scan meets them ----------

  function AllPaths(entries: seq<Node>, paths: Node -> seq<Path>): seq<Path> {
    if entries == [] then []
    else AllPaths(entries[..|entries| - 1], paths) + paths(entries[|entries| - 1])
  }

  lemma OneMoreEntry(entries: seq<Node>, k: nat, paths: Node -> seq<Path>)
    requires k < |entries|
    ensures |AllPaths(entries[..k + 1], paths)| == |AllPaths(entries[..k], paths)| + |paths(entries[k])|
  {
    assert entries[..k + 1][..k] == entries[..k];
  }

  lemma {:induction false} AllPathsHas(entries: seq<Node>, paths: Node -> seq<Path>, p: Path)
    ensures p in AllPaths(entries, paths) <==> exists k :: 0 <= k < |entries| && p in paths(entries[k])
  {
    if entries != [] {
      var front := entries[..|entries| - 1];
      AllPathsHas(front, paths, p);
      assert forall k :: 0 <= k < |front| ==> front[k] == entries[k];
    }
  }

  lemma NoDupConcat(a: seq<Path>, b: seq<Path>)
    requires NoDup(a) && NoDup(b) && forall p :: p in b ==> p !in a
    ensures NoDup(a + b)
  {
    forall i, j | 0 <= i < j < |a + b| ensures (a + b)[i] != (a + b)[j] {
      if i < |a| <= j {
        assert (a + b)[j] in b && (a + b)[i] in a;
      }
    }
  }

  /** Entries that share no path, and list none twice, list none twice together. */
  lemma {:induction false} AllPathsNoDup(entries: seq<Node>, paths: Node -> seq<Path>)
    requires forall k :: 0 <= k < |entries| ==> NoDup(paths(entries[k]))
    requires forall i, j, p :: 0 <= i < j < |entries| && p in paths(entries[i]) ==> p !in paths(entries[j])
    ensures NoDup(AllPaths(entries, paths))
  {
    if entries != [] {
      var front, last := entries[..|entries| - 1], entries[|entries| - 1];
      assert forall k :: 0 <= k < |front| ==> front[k] == entries[k];
      AllPathsNoDup(front, paths);
      forall p | p in paths(last) ensures p !in AllPaths(front, paths) {
        AllPathsHas(front, paths, p);
      }
      NoDupConcat(AllPaths(front, paths), paths(last));
    }
  }

  function BlockPath(ls: Name, sub: Name, n: Node): seq<Path> {
    if IsDot(n) then [] else [Path(ls, sub, n.name)]
  }

  function BlockPaths(ls: Name, sub: Name, entries: seq<Node>): seq<Path> {
    AllPaths(entries, b => BlockPath(ls, sub, b))
  }

  function LsEntryPaths(ls: Name, n: Node): seq<Path> {
    if n.Dir? && n.name in {"log", "meta"} then BlockPaths(ls, n.name, n.entries) else []
  }

  function LsPaths(ls: Name, entries: seq<Node>): seq<Path> {
    AllPaths(entries, e => LsEntryPaths(ls, e))
  }

  function TenantEntryPaths(n: Node): seq<Path> {
    if n.Dir? && IsLsName(n.name) then LsPaths(n.name, n.entries) else []
  }

  function TopEntryPaths(n: Node): seq<Path> {
    if n.Dir? && n.name == "sys" then AllPaths(n.entries, TenantEntryPaths) else []
  }

  function TopPaths(entries: seq<Node>): seq<Path> { AllPaths(entries, TopEntryPaths) }

  lemma LsNameIff(s: Name)
    ensures IsLsName(s) <==> StreamName(s)
  {
    assert forall i :: 0 <= i < |s| ==> (IsDigit(s[i]) <==> '0' <= s[i] <= '9');
  }

  lemma BlockPathsExact(ls: Name, sub: Name, entries: seq<Node>, p: Path)
    ensures p in BlockPaths(ls, sub, entries) <==>
              exists d :: 0 <= d < |entries| && entries[d].name !in {".", ".."} && p == Path(ls, sub, entries[d].name)
  {
    AllPathsHas(entries, b => BlockPath(ls, sub, b), p);
  }

  lemma BlockPathsNoDup(ls: Name, sub: Name, entries: seq<Node>)
    requires DistinctNames(entries)
    ensures NoDup(BlockPaths(ls, sub, entries))
  {
    AllPathsNoDup(entries, b => BlockPath(ls, sub, b));
  }

  lemma LsEntryPathsExact(ls: Name, n: Node, p: Path)
    ensures p in LsEntryPaths(ls, n) <==>
              && n.Dir? && n.name in {"log", "meta"}
              && exists d :: 0 <= d < |n.entries| && n.entries[d].name !in {".", ".."}
                             && p == Path(ls, n.name, n.entries[d].name)
  {
    if n.Dir? { BlockPathsExact(ls, n.name, n.entries, p); }
  }

  lemma LsPathsExact(ls: Name, entries: seq<Node>, p: Path)
    ensures p in LsPaths(ls, entries) <==> p in BlocksOfStream(ls, entries)
  {
    AllPathsHas(entries, e => LsEntryPaths(ls, e), p);
    forall k | 0 <= k < |entries| ensures p in LsEntryPaths(ls, entries[k]) ==> p in BlocksOfStream(ls, entries) {
      LsEntryPathsExact(ls, entries[k], p);
    }
    if p in BlocksOfStream(ls, entries) {
      var c, d :| 0 <= c < |entries| && entries[c].Dir? && entries[c].name in {"log", "meta"}
                  && 0 <= d < |entries[c].entries| && entries[c].entries[d].name !in {".", ".."}
                  && p == Path(ls, entries[c].name, entries[c].entries[d].name);
      LsEntryPathsExact(ls, entries[c], p);
    }
  }

  lemma LsPathsNoDup(ls: Name, entries: seq<Node>)
    requires DistinctNames(entries)
    ensures NoDup(LsPaths(ls, entries))
  {
    forall k | 0 <= k < |entries| ensures NoDup(LsEntryPaths(ls, entries[k])) {
      if entries[k].Dir? { BlockPathsNoDup(ls, entries[k].name, entries[k].entries); }
    }
    forall i, j, p | 0 <= i < j < |entries| && p in LsEntryPaths(ls, entries[i])
      ensures p !in LsEntryPaths(ls, entries[j])
    {
      LsEntryPathsExact(ls, entries[i], p);
      LsEntryPathsExact(ls, entries[j], p);
    }
    AllPathsNoDup(entries, e => LsEntryPaths(ls, e));
  }

  lemma TenantEntryPathsExact(n: Node, p: Path)
    ensures p in TenantEntryPaths(n) <==> n.Dir? && StreamName(n.name) && p in BlocksOfStream(n.name, n.entries)
    ensures p in TenantEntryPaths(n) ==> p.ls == n.name
  {
    LsNameIff(n.name);
    if n.Dir? { LsPathsExact(n.name, n.entries, p); }
  }

  lemma TenantPathsExact(entries: seq<Node>, p: Path)
    ensures p in AllPaths(entries, TenantEntryPaths) <==> p in BlocksOfTenant(entries)
  {
    AllPathsHas(entries, TenantEntryPaths, p);
    forall k | 0 <= k < |entries| ensures p in TenantEntryPaths(entries[k]) ==> p in BlocksOfTenant(entries) {
      TenantEntryPathsExact(entries[k], p);
    }
    if p in BlocksOfTenant(entries) {
      var b, c, d :|
        && 0 <= b < |entries| && entries[b].Dir? && StreamName(entries[b].name)
        && 0 <= c < |entries[b].entries| && entries[b].entries[c].Dir?
        && entries[b].entries[c].name in {"log", "meta"}
        && 0 <= d < |entries[b].entries[c].entries|
        && entries[b].entries[c].entries[d].name !in {".", ".."}
        && p == Path(entries[b].name, entries[b].entries[c].name, entries[b].entries[c].entries[d].name);
      TenantEntryPathsExact(entries[b], p);
    }
  }

  lemma TenantPathsNoDup(entries: seq<Node>)
    requires DistinctNames(entries)
    ensures NoDup(AllPaths(entries, TenantEntryPaths))
  {
    forall k | 0 <= k < |entries| ensures NoDup(TenantEntryPaths(entries[k])) {
      if entries[k].Dir? { LsPathsNoDup(entries[k].name, entries[k].entries); }
    }
    forall i, j, p | 0 <= i < j < |entries| && p in TenantEntryPaths(entries[i])
      ensures p !in TenantEntryPaths(entries[j])
    {
      TenantEntryPathsExact(entries[i], p);
      TenantEntryPathsExact(entries[j], p);
    }
    AllPathsNoDup(entries, TenantEntryPaths);
  }

  lemma OnDiskIff(entries: seq<Node>, p: Path)
    ensures p in BlocksOnDisk(entries) <==>
              exists a :: 0 <= a < |entries| && entries[a].Dir? && entries[a].name == "sys"
                          && p in BlocksOfTenant(entries[a].entries)
  {
  }

  /** A scan meets exactly the blocks under `sys`, in `log` and `meta` of the streams. */
  lemma TopPathsExact(entries: seq<Node>, p: Path)
    ensures p in TopPaths(entries) <==> p in BlocksOnDisk(entries)
  {
    AllPathsHas(entries, TopEntryPaths, p);
    OnDiskIff(entries, p);
    forall k | 0 <= k < |entries| && entries[k].Dir?
      ensures p in AllPaths(entries[k].entries, TenantEntryPaths) <==> p in BlocksOfTenant(entries[k].entries)
    {
      TenantPathsExact(entries[k].entries, p);
    }
  }

  lemma TopPathsNoDup(entries: seq<Node>)
    requires DistinctNames(entries)
    ensures NoDup(TopPaths(entries))
  {
    forall k | 0 <= k < |entries| ensures NoDup(TopEntryPaths(entries[k])) {
      if entries[k].Dir? { TenantPathsNoDup(entries[k].entries); }
    }
    AllPathsNoDup(entries, TopEntryPaths);
  }

  /** Where no name stands twice, meeting every block is counting the blocks. */
  lemma LsPathsCount(ls: Name, entries: seq<Node>)
    requires DistinctNames(entries)
    ensures |LsPaths(ls, entries)| == |BlocksOfStream(ls, entries)|
  {
    var paths := LsPaths(ls, entries);
    LsPathsNoDup(ls, entries);
    ElementsSize(paths);
    assert Elements(paths) == BlocksOfStream(ls, entries) by {
      forall p ensures p in paths <==> p in BlocksOfStream(ls, entries) { LsPathsExact(ls, entries, p); }
    }
  }

  lemma TenantPathsCount(entries: seq<Node>)
    requires DistinctNames(entries)
    ensures |AllPaths(entries, TenantEntryPaths)| == |BlocksOfTenant(entries)|
  {
    var paths := AllPaths(entries, TenantEntryPaths);
    TenantPathsNoDup(entries);
    ElementsSize(paths);
    assert Elements(paths) == BlocksOfTenant(entries) by {
      forall p ensures p in paths <==> p in BlocksOfTenant(entries) { TenantPathsExact(entries, p); }
    }
  }

  lemma TopPathsCount(entries: seq<Node>)
    requires DistinctNames(entries)
    ensures |TopPaths(entries)| == |BlocksOnDisk(entries)|
  {
    var paths := TopPaths(entries);
    TopPathsNoDup(entries);
    ElementsSize(paths);
    assert Elements(paths) == BlocksOnDisk(entries) by {
      forall p ensures p in paths <==> p in BlocksOnDisk(entries) { TopPathsExact(entries, p); }
    }
  }

  // ---------- the nested scans ----------

  /** Count the entries of a `log` or `meta` directory by their names. */
  method ScanBlocks(ghost ls: Name, ghost sub: Name, entries: seq<Node>) returns (code: Code, count: nat)
    ensures code in {Success, Unexpected}
    ensures code == Success <==> BlockDirOk(entries)
    ensures code == Success ==> count == |BlockPaths(ls, sub, entries)|
  {
    code, count := Success, 0;
    ghost var paths := b => BlockPath(ls, sub, b);
    var k := 0;
    while k < |entries| && code == Success
      invariant 0 <= k <= |entries| && code in {Success, Unexpected}
      invariant code == Success <==> BlockDirOk(entries[..k])
      invariant code == Success ==> count == |AllPaths(entries[..k], paths)|
    {
      OneMoreEntry(entries, k, paths);
      assert forall d :: 0 <= d < k ==> entries[..k + 1][d] == entries[..k][d];
      var n := entries[k];
      assert entries[..k + 1][k] == n;
      BlockNameIff(n.name);
      if !IsDot(n) {
        if !IsNumber(n.name) && !IsFlashbackBlock(n.name) {
          code := Unexpected;
        } else {
          count := count + 1;
        }
      }
      k := k + 1;
    }
    assert entries[..|entries|] == entries;
  }

  lemma BlockNameIff(s: Name)
    ensures BlockName(s) <==> IsNumber(s) || IsFlashbackBlock(s)
  {
    assert forall i :: 0 <= i < |s| ==> (IsDigit(s[i]) <==> '0' <= s[i] <= '9');
  }

  /** `log` and `meta` are counted; anything else is not ours. */
  method ScanLsEntry(ghost ls: Name, n: Node, count0: nat) returns (code: Code, count: nat)
    ensures code in {Success, Unexpected}
    ensures code == Success <==> StreamDirOk([n])
    ensures code == Success ==> count == count0 + |LsEntryPaths(ls, n)|
  {
    code, count := Success, count0;
    assert [n][0] == n;
    if IsDot(n) {
      return;
    }
    if n.File? {
      code := Unexpected;
    } else if n.name == "log" || n.name == "meta" {
      var blocks;
      code, blocks := ScanBlocks(ls, n.name, n.entries);
      if code == Success {
        count := count + blocks;
      }
    } else {
      code := Unexpected;
    }
  }

  lemma OneMoreOk(entries: seq<Node>, k: nat)
    requires k < |entries|
    ensures StreamDirOk(entries[..k + 1]) <==> StreamDirOk(entries[..k]) && StreamDirOk([entries[k]])
    ensures TenantDirOk(entries[..k + 1]) <==> TenantDirOk(entries[..k]) && TenantDirOk([entries[k]])
    ensures WellFormed(entries[..k + 1]) <==> WellFormed(entries[..k]) && WellFormed([entries[k]])
  {
    assert entries[..k + 1] == entries[..k] + [entries[k]];
    OkConcat(entries[..k], [entries[k]]);
  }

  lemma OkConcat(a: seq<Node>, b: seq<Node>)
    ensures StreamDirOk(a + b) <==> StreamDirOk(a) && StreamDirOk(b)
    ensures TenantDirOk(a + b) <==> TenantDirOk(a) && TenantDirOk(b)
    ensures WellFormed(a + b) <==> WellFormed(a) && WellFormed(b)
  {
    assert forall i :: 0 <= i < |a| ==> (a + b)[i] == a[i];
    assert forall i :: 0 <= i < |b| ==> (a + b)[|a| + i] == b[i];
  }

  /** The blocks of one stream. */
  method ScanLsDir(ghost ls: Name, entries: seq<Node>, count0: nat) returns (code: Code, count: nat)
    ensures code in {Success, Unexpected}
    ensures code == Success <==> StreamDirOk(entries)
    ensures code == Success ==> count == count0 + |LsPaths(ls, entries)|
    ensures code == Success && DistinctNames(entries) ==> count == count0 + |BlocksOfStream(ls, entries)|
  {
    code, count := Success, count0;
    ghost var paths := e => LsEntryPaths(ls, e);
    var k := 0;
    while k < |entries| && code == Success
      invariant 0 <= k <= |entries| && code in {Success, Unexpected}
      invariant code == Success <==> StreamDirOk(entries[..k])
      invariant code == Success ==> count == count0 + |AllPaths(entries[..k], paths)|
    {
      OneMoreEntry(entries, k, paths);
      OneMoreOk(entries, k);
      code, count := ScanLsEntry(ls, entries[k], count);
      k := k + 1;
    }
    assert entries[..|entries|] == entries;
    if DistinctNames(entries) { LsPathsCount(ls, entries); }
  }

  /** Log streams are scanned, the temporary directory is passed over. */
  method ScanTenantEntry(n: Node, count0: nat) returns (code: Code, count: nat)
    ensures code in {Success, Unexpected}
    ensures code == Success <==> TenantDirOk([n])
    ensures code == Success ==> count == count0 + |TenantEntryPaths(n)|
  {
    code, count := Success, count0;
    assert [n][0] == n;
    LsNameIff(n.name);
    if IsDot(n) {
      return;
    }
    if n.File? {
      code := Unexpected;
    } else if IsLsName(n.name) {
      assert n.name != "tmp_dir" by { assert "tmp_dir"[0] == 't'; }
      code, count := ScanLsDir(n.name, n.entries, count);
    } else if n.name != "tmp_dir" {
      code := Unexpected;
    }
  }

  /** The blocks of all the streams. */
  method ScanTenantDir(entries: seq<Node>, count0: nat) returns (code: Code, count: nat)
    ensures code in {Success, Unexpected}
    ensures code == Success <==> TenantDirOk(entries)
    ensures code == Success ==> count == count0 + |AllPaths(entries, TenantEntryPaths)|
    ensures code == Success && DistinctNames(entries) ==> count == count0 + |BlocksOfTenant(entries)|
  {
    code, count := Success, count0;
    var k := 0;
    while k < |entries| && code == Success
      invariant 0 <= k <= |entries| && code in {Success, Unexpected}
      invariant code == Success <==> TenantDirOk(entries[..k])
      invariant code == Success ==> count == count0 + |AllPaths(entries[..k], TenantEntryPaths)|
    {
      OneMoreEntry(entries, k, TenantEntryPaths);
      OneMoreOk(entries, k);
      code, count := ScanTenantEntry(entries[k], count);
      k := k + 1;
    }
    assert entries[..|entries|] == entries;
    if DistinctNames(entries) { TenantPathsCount(entries); }
  }

  method ScanTopEntry(n: Node, count0: nat) returns (code: Code, count: nat)
    ensures code in {Success, Unexpected}
    ensures code == Success <==> WellFormed([n])
    ensures code == Success ==> count == count0 + |TopEntryPaths(n)|
  {
    code, count := Success, count0;
    assert [n][0] == n;
    if IsDot(n) {
      return;
    }
    if n.File? {
      code := Unexpected;
    } else if n.name == "sys" {
      code, count := ScanTenantDir(n.entries, count);
    } else if n.name != "log_pool" {
      code := Unexpected;
    }
  }

  /** The whole log directory: succeeds exactly on a well-formed tree, and counts its blocks. */
  method ScanLogDisk(entries: seq<Node>) returns (code: Code, count: nat)
    ensures code in {Success, Unexpected}
    ensures code == Success <==> WellFormed(entries)
    ensures code == Success ==> count == |TopPaths(entries)|
    ensures code == Success && DistinctNames(entries) ==> count == |BlocksOnDisk(entries)|
  {
    code, count := Success, 0;
    var k := 0;
    while k < |entries| && code == Success
      invariant 0 <= k <= |entries| && code in {Success, Unexpected}
      invariant code == Success <==> WellFormed(entries[..k])
      invariant code == Success ==> count == |AllPaths(entries[..k], TopEntryPaths)|
    {
      OneMoreEntry(entries, k, TopEntryPaths);
      OneMoreOk(entries, k);
      code, count := ScanTopEntry(entries[k], count);
      k := k + 1;
    }
    assert entries[..|entries|] == entries;
    if DistinctNames(entries) { TopPathsCount(entries); }
  }

  // ---------- the tree that the log service lays out ----------

  datatype Stream = Stream(ls: Name, log: seq<Name>, meta: seq<Name>)

  function BlockFiles(names: seq<Name>): seq<Node> {
    if names == [] then [] else BlockFiles(names[..|names| - 1]) + [File(names[|names| - 1], 67108864)]
  }

  function StreamDir(s: Stream): Node {
    Dir(s.ls, [Dir("log", BlockFiles(s.log)), Dir("meta", BlockFiles(s.meta))])
  }

  function StreamDirs(streams: seq<Stream>): seq<Node> {
    if streams == [] then [] else StreamDirs(streams[..|streams| - 1]) + [StreamDir(streams[|streams| - 1])]
  }

  function BlocksOf(streams: seq<Stream>): nat {
    if streams == [] then 0
    else
      var last := streams[|streams| - 1];
      BlocksOf(streams[..|streams| - 1]) + |last.log| + |last.meta|
  }

  function LogDisk(streams: seq<Stream>, tmp: seq<Node>, pool: seq<Node>): seq<Node> {
    [Dir("sys", StreamDirs(streams) + [Dir("tmp_dir", tmp)]), Dir("log_pool", pool)]
  }

  ghost predicate NamesOk(s: Stream) {
    && StreamName(s.ls)
    && (forall i :: 0 <= i < |s.log| ==> BlockName(s.log[i]))
    && (forall i :: 0 <= i < |s.meta| ==> BlockName(s.meta[i]))
  }

  lemma DotsAreNoBlockNames()
    ensures !BlockName(".") && !BlockName("..")
  {
    assert "."[0] == '.' && ".."[0] == '.';
    assert forall i :: 0 <= i <= 1 ==> |"."[i..]| < |".flashback"|;
    assert forall i :: 0 <= i <= 2 ==> |".."[i..]| < |".flashback"|;
  }

  lemma {:induction false} BlockFilesCount(ls: Name, sub: Name, names: seq<Name>)
    requires forall i :: 0 <= i < |names| ==> BlockName(names[i])
    ensures BlockDirOk(BlockFiles(names)) && |BlockPaths(ls, sub, BlockFiles(names))| == |names|
  {
    if names != [] {
      var front := names[..|names| - 1];
      BlockFilesCount(ls, sub, front);
      DotsAreNoBlockNames();
      assert BlockFiles(names)[..|BlockFiles(front)|] == BlockFiles(front);
    }
  }

  lemma StreamDirCount(s: Stream)
    requires NamesOk(s)
    ensures TenantDirOk([StreamDir(s)]) && |TenantEntryPaths(StreamDir(s))| == |s.log| + |s.meta|
  {
    LsNameIff(s.ls);
    BlockFilesCount(s.ls, "log", s.log);
    BlockFilesCount(s.ls, "meta", s.meta);
    var paths, log, meta := e => LsEntryPaths(s.ls, e), Dir("log", BlockFiles(s.log)), Dir("meta", BlockFiles(s.meta));
    assert [log, meta][..1] == [log] && [log][..0] == [];
    assert StreamDirOk([log, meta]);
    assert |AllPaths([log], paths)| == |s.log|;
    assert |AllPaths([log, meta], paths)| == |s.log| + |s.meta|;
  }

  lemma {:induction false} StreamDirsCount(streams: seq<Stream>)
    requires forall i :: 0 <= i < |streams| ==> NamesOk(streams[i])
    ensures TenantDirOk(StreamDirs(streams))
    ensures |AllPaths(StreamDirs(streams), TenantEntryPaths)| == BlocksOf(streams)
  {
    if streams != [] {
      var front, last := streams[..|streams| - 1], streams[|streams| - 1];
      StreamDirsCount(front);
      StreamDirCount(last);
      assert StreamDirs(streams)[..|StreamDirs(front)|] == StreamDirs(front);
      assert [StreamDir(last)][0] == StreamDir(last);
    }
  }

  /** Whatever the service lays out is well-formed, and every `log` and `meta` block in it is counted. */
  lemma OwnDiskCount(streams: seq<Stream>, tmp: seq<Node>, pool: seq<Node>)
    requires forall i :: 0 <= i < |streams| ==> NamesOk(streams[i])
    ensures WellFormed(LogDisk(streams, tmp, pool)) && |TopPaths(LogDisk(streams, tmp, pool))| == BlocksOf(streams)
  {
    StreamDirsCount(streams);
    var dirs, disk := StreamDirs(streams) + [Dir("tmp_dir", tmp)], LogDisk(streams, tmp, pool);
    assert dirs[..|dirs| - 1] == StreamDirs(streams) && dirs[|dirs| - 1] == Dir("tmp_dir", tmp);
    assert !IsLsName("tmp_dir") by { assert "tmp_dir"[0] == 't'; }
    assert |AllPaths(dirs, TenantEntryPaths)| == BlocksOf(streams);
    assert TenantDirOk(dirs);
    assert disk[..1] == [disk[0]] && [disk[0]][..0] == [];
    assert |AllPaths([disk[0]], TopEntryPaths)| == BlocksOf(streams);
  }

  // ---------- the counter over a history ----------

  /** What happened to blocks. `synced`: the directory was flushed, so the call counted it. */
  datatype Op =
    | Created(p: Path, size: int, synced: bool)
    | Removed(p: Path, size: int, synced: bool)
    | Renamed(p: Path, q: Path)

  function FilesAfter(start: map<Path, int>, ops: seq<Op>): map<Path, int> {
    if ops == [] then start
    else
      var before := FilesAfter(start, ops[..|ops| - 1]);
      match ops[|ops| - 1]
      case Created(p, size, _) => before[p := size]
      case Removed(p, _, _) => before - {p}
      case Renamed(p, q) => if p in before then (before - {p})[q := before[p]] else before
  }

  /** The operation meets the files as they are: nothing is created or renamed over a file. */
  predicate FitsNow(files: map<Path, int>, op: Op) {
    match op
    case Created(p, _, _) => p !in files
    case Removed(p, size, _) => p in files && files[p] == size
    case Renamed(p, q) => p in files && q !in files
  }

  predicate Fits(start: map<Path, int>, ops: seq<Op>) {
    ops == [] ||
    (Fits(start, ops[..|ops| - 1]) && FitsNow(FilesAfter(start, ops[..|ops| - 1]), ops[|ops| - 1]))
  }

  /** How far the counter is above the number of files because of one operation. */
  function Off(op: Op): int {
    match op
    case Created(_, _, synced) => if synced then 0 else -1
    case Removed(_, size, synced) => if size == BLOCK_SIZE && synced then 0 else 1
    case Renamed(_, _) => 0
  }

  function Drift(ops: seq<Op>): int {
    if ops == [] then 0 else Drift(ops[..|ops| - 1]) + Off(ops[|ops| - 1])
  }

  /** The listing shows exactly these files, each once. */
  ghost predicate Shows(entries: seq<Node>, files: map<Path, int>) {
    DistinctNames(entries) && files.Keys == BlocksOnDisk(entries)
  }

  lemma SizeAfter(files: map<Path, int>, p: Path, size: int)
    ensures p !in files ==> |files[p := size]| == |files| + 1
    ensures p in files ==> |files - {p}| == |files| - 1
  {
    if p !in files {
      assert files[p := size].Keys == files.Keys + {p};
    } else {
      assert (files - {p}).Keys == files.Keys - {p};
    }
  }

  function Change(op: Op): int {
    match op
    case Created(_, _, _) => 1
    case Removed(_, _, _) => -1
    case Renamed(_, _) => 0
  }

  /** What one more operation does to the files and to the drift. */
  lemma OneMore(start: map<Path, int>, ops: seq<Op>, op: Op)
    requires Fits(start, ops) && FitsNow(FilesAfter(start, ops), op)
    ensures Fits(start, ops + [op])
    ensures |FilesAfter(start, ops + [op])| == |FilesAfter(start, ops)| + Change(op)
    ensures Drift(ops + [op]) == Drift(ops) + Off(op)
  {
    var more, files := ops + [op], FilesAfter(start, ops);
    assert more[..|more| - 1] == ops;
    match op
    case Created(p, size, _) => SizeAfter(files, p, size);
    case Removed(p, size, _) => SizeAfter(files, p, size);
    case Renamed(p, q) =>
      SizeAfter(files, p, 0);
      SizeAfter(files - {p}, q, files[p]);
  }

  lemma RemovedFiles(start: map<Path, int>, ops: seq<Op>, p: Path, size: int, synced: bool)
    ensures FilesAfter(start, ops + [Removed(p, size, synced)]) == FilesAfter(start, ops) - {p}
  {
    var more := ops + [Removed(p, size, synced)];
    assert more[..|more| - 1] == ops;
  }

  lemma RemoveStep(start: map<Path, int>, ops: seq<Op>, p: Path, size: int, synced: bool)
    requires Fits(start, ops) && p in FilesAfter(start, ops) && FilesAfter(start, ops)[p] == size
    ensures var more := ops + [Removed(p, size, synced)];
            && Fits(start, more) && FilesAfter(start, more) == FilesAfter(start, ops) - {p}
            && |FilesAfter(start, more)| + Drift(more) == |FilesAfter(start, ops)| + Drift(ops)
               - if size == 67108864 && synced then 1 else 0
  {
    OneMore(start, ops, Removed(p, size, synced));
    RemovedFiles(start, ops, p, size, synced);
  }

  /** How one attempt to allocate a block ends while its name is free. */
  datatype Try =
    | Refused                   // the file could not be opened
    | Left(left: int)           // opened, but not allocated or not closed: a file of this size stays
    | Allocated

  /** The first attempt that made a file. */
  function FirstOpened(tries: seq<Try>): Option<Try> {
    if tries == [] then None
    else
      var before := FirstOpened(tries[..|tries| - 1]);
      if before.Some? || tries[|tries| - 1].Refused? then before else Some(tries[|tries| - 1])
  }

  lemma FirstOpenedAt(tries: seq<Try>, k: nat)
    requires k < |tries| && FirstOpened(tries[..k]) == None
    ensures tries[k].Refused? ==> FirstOpened(tries[..k + 1]) == None
    ensures !tries[k].Refused? ==> FirstOpened(tries) == Some(tries[k])
  {
    assert tries[..k + 1][..k] == tries[..k];
    if !tries[k].Refused? {
      FirstOpenedStays(tries, k + 1);
    }
  }

  lemma {:induction false} FirstOpenedStays(tries: seq<Try>, k: nat)
    requires k <= |tries| && FirstOpened(tries[..k]).Some?
    ensures FirstOpened(tries) == FirstOpened(tries[..k])
  {
    if k == |tries| {
      assert tries[..k] == tries;
    } else {
      assert tries[..|tries| - 1][..k] == tries[..k];
      FirstOpenedStays(tries[..|tries| - 1], k);
    }
  }

  /** The file, if any, that the attempts made; over a name that exists they make none. */
  function MadeFile(nameTaken: bool, tries: seq<Try>): Option<Try> {
    if nameTaken then None else FirstOpened(tries)
  }

  lemma {:induction false} FirstOpenedNotRefused(tries: seq<Try>)
    ensures FirstOpened(tries).Some? ==> !FirstOpened(tries).value.Refused?
  {
    if tries != [] { FirstOpenedNotRefused(tries[..|tries| - 1]); }
  }

  /** An attempt allocated the block and every earlier one could not even open the file. */
  ghost predicate AllocatedFirst(tries: seq<Try>) {
    exists k :: 0 <= k < |tries| && tries[k].Allocated? && OnlyRefused(tries[..k])
  }

  ghost predicate OnlyRefused(tries: seq<Try>) {
    forall j :: 0 <= j < |tries| ==> tries[j].Refused?
  }

  /** Creating ends exactly when the name is free and no attempt left a file before one succeeded. */
  lemma CreateEndsIff(nameTaken: bool, tries: seq<Try>)
    ensures MadeFile(nameTaken, tries) == Some(Allocated) <==> !nameTaken && AllocatedFirst(tries)
  {
    FirstOpenedExact(tries);
  }

  /** One attempt that leaves a file behind and the call never ends, whatever comes after. */
  lemma LeftFileBlocksCreation(refused: seq<Try>, size: int, rest: seq<Try>)
    requires OnlyRefused(refused)
    ensures MadeFile(false, refused + [Left(size)] + rest) == Some(Left(size))
  {
    var tries := refused + [Left(size)] + rest;
    assert tries[..|refused|] == refused && tries[|refused|] == Left(size);
    FirstOpenedExact(refused);
    FirstOpenedAt(tries, |refused|);
  }

  lemma {:induction false} FirstOpenedExact(tries: seq<Try>)
    ensures FirstOpened(tries) == None <==> OnlyRefused(tries)
    ensures FirstOpened(tries) == Some(Allocated) <==> AllocatedFirst(tries)
  {
    if tries != [] {
      var front, last := tries[..|tries| - 1], tries[|tries| - 1];
      FirstOpenedExact(front);
      assert forall j :: 0 <= j < |front| ==> front[j] == tries[j];
      if AllocatedFirst(front) {
        var k :| 0 <= k < |front| && front[k].Allocated? && OnlyRefused(front[..k]);
        assert tries[..k] == front[..k];
      }
      if AllocatedFirst(tries) {
        var k :| 0 <= k < |tries| && tries[k].Allocated? && OnlyRefused(tries[..k]);
        if k < |front| {
          assert front[..k] == tries[..k] && front[k].Allocated?;
        } else {
          assert tries[..k] == front;
        }
      }
      if OnlyRefused(front) && last.Allocated? {
        assert tries[..|front|] == front && tries[|front|].Allocated?;
      }
    }
  }

  function CreateOps(p: Path, made: Option<Try>, fsync: Code): seq<Op> {
    match made
    case Some(Left(size)) => [Created(p, size, false)]
    case Some(Allocated) => [Created(p, BLOCK_SIZE, fsync == Success)]
    case _ => []
  }

  /** Repeats until one attempt succeeds; a file left behind makes all later ones fail. */
  method AllocateUntilSuccess(nameTaken: bool, tries: seq<Try>) returns (made: Option<Try>)
    ensures made == MadeFile(nameTaken, tries)
    ensures made.Some? ==> !nameTaken && !made.value.Refused?
  {
    made := None;
    var taken, k := nameTaken, 0;
    while k < |tries| && made != Some(Allocated)
      invariant 0 <= k <= |tries|
      invariant taken <==> nameTaken || made.Some?
      invariant made.Some? ==> !nameTaken && made == FirstOpened(tries)
      invariant made.None? && !nameTaken ==> FirstOpened(tries[..k]) == None
    {
      if !taken {
        FirstOpenedAt(tries, k);
        if !tries[k].Refused? {
          made, taken := Some(tries[k]), true;
        }
      }
      k := k + 1;
    }
    assert tries[..|tries|] == tries;
    FirstOpenedNotRefused(tries);
  }

  function FilesWith(files: map<Path, int>, p: Path, made: Option<Try>): map<Path, int> {
    match made
    case Some(Left(size)) => files[p := size]
    case Some(Allocated) => files[p := 67108864]
    case _ => files
  }

  lemma CreatedFiles(start: map<Path, int>, ops: seq<Op>, p: Path, made: Option<Try>, fsync: Code)
    ensures FilesAfter(start, ops + CreateOps(p, made, fsync)) == FilesWith(FilesAfter(start, ops), p, made)
  {
    var more := ops + CreateOps(p, made, fsync);
    if CreateOps(p, made, fsync) == [] {
      assert more == ops;
    } else {
      assert more[..|more| - 1] == ops;
    }
  }

  lemma CreateStep(start: map<Path, int>, ops: seq<Op>, p: Path, made: Option<Try>, fsync: Code)
    requires Fits(start, ops) && (made.Some? ==> p !in FilesAfter(start, ops))
    ensures var more := ops + CreateOps(p, made, fsync);
            && Fits(start, more)
            && |FilesAfter(start, more)| + Drift(more) == |FilesAfter(start, ops)| + Drift(ops)
               + if made == Some(Allocated) && fsync == Success then 1 else 0
  {
    match made {
      case Some(Left(size)) => OneMore(start, ops, Created(p, size, false));
      case Some(Allocated) => OneMore(start, ops, Created(p, BLOCK_SIZE, fsync == Success));
      case _ => assert ops + [] == ops;
    }
  }

  class BlockMgr {
    var inited: bool
    var inUse: int                              // block_cnt_in_use_
    ghost var start: map<Path, int>             // the files when the count was last taken
    ghost var ops: seq<Op>                      // what was done since

    ghost function Files(): map<Path, int>
      reads this
    {
      FilesAfter(start, ops)
    }

    ghost predicate Valid()
      reads this
    {
      Fits(start, ops) && inUse == |Files()| + Drift(ops)
    }

    constructor ()
      ensures Valid() && start == map[] && ops == []
    {
      inited, inUse, start, ops := true, 0, map[], [];
    }

    /** Loading takes the count by a scan; afterwards nothing is off. */
    method Load(removeTmp: Code, entries: seq<Node>, ghost files: map<Path, int>) returns (code: Code)
      requires Shows(entries, files)
      modifies this
      ensures inited == old(inited)
      ensures code == Success <==> removeTmp == Success && WellFormed(entries)
      ensures code == Success ==> Valid() && start == files && ops == [] && inUse == |files|
      ensures code != Success ==> inUse == old(inUse) && start == old(start) && ops == old(ops)
    {
      code := removeTmp;
      if code == Success {
        var count;
        code, count := ScanLogDisk(entries);
        if code == Success {
          inUse := count;
          start, ops := files, [];
        }
      }
    }

    /**
     A block is created under a new name; it is counted once the directory is flushed. The
     allocation is repeated until it succeeds: `tries` says how each attempt ends while the name is
     free, and no answer means that the call is still repeating after all of them. It never ends
     over a name that exists, nor after an attempt that left a file behind.
     */
    method CreateBlockAt(p: Path, nameTaken: bool, argsOk: bool, size: int, tries: seq<Try>, fsync: Code)
      returns (code: Option<Code>)
      requires Valid() && (nameTaken <==> p in Files())
      modifies this`inUse, this`ops
      ensures Valid() && start == old(start)
      ensures !inited ==> code == Some(NotInit) && ops == old(ops)
      ensures inited && !(argsOk && size == BLOCK_SIZE) ==> code == Some(InvalidArgument) && ops == old(ops)
      ensures inited && argsOk && size == BLOCK_SIZE ==>
                && (code == if MadeFile(nameTaken, tries) == Some(Allocated) then Some(fsync) else None)
                && ops == old(ops) + CreateOps(p, MadeFile(nameTaken, tries), fsync)
      ensures inUse == old(inUse) + if inited && code == Some(Success) then 1 else 0
      ensures Files() == if inited && argsOk && size == 67108864
                         then FilesWith(old(Files()), p, MadeFile(nameTaken, tries)) else old(Files())
    {
      if !inited {
        code := Some(NotInit);
      } else if !argsOk || size != BLOCK_SIZE {
        code := Some(InvalidArgument);
      } else {
        var made := AllocateUntilSuccess(nameTaken, tries);
        NoteCreated(p, made, fsync);
        code := if made == Some(Allocated) then Some(fsync) else None;
      }
    }

    /** What the attempts made is there; a block is counted once the directory is flushed. */
    method NoteCreated(p: Path, made: Option<Try>, fsync: Code)
      requires Valid() && (made.Some? ==> p !in Files())
      modifies this`inUse, this`ops
      ensures Valid() && start == old(start) && ops == old(ops) + CreateOps(p, made, fsync)
      ensures inUse == old(inUse) + if made == Some(Allocated) && fsync == Success then 1 else 0
      ensures Files() == FilesWith(old(Files()), p, made)
    {
      CreateStep(start, ops, p, made, fsync);
      CreatedFiles(start, ops, p, made, fsync);
      ops := ops + CreateOps(p, made, fsync);
      if made == Some(Allocated) && fsync == Success {
        inUse := inUse + 1;
      }
    }

    /** A file of another size is unlinked and success is answered, but it is not counted off. */
    method RemoveBlockAt(p: Path, size: int, statCode: Code, unlinked: bool, fsync: Code) returns (code: Code)
      requires Valid() && p in Files() && Files()[p] == size
      modifies this`inUse, this`ops
      ensures Valid() && start == old(start)
      ensures statCode != Success ==> code == statCode && ops == old(ops)
      ensures statCode == Success && size != BLOCK_SIZE ==>
                code == Success && inUse == old(inUse) && ops ==
                          if unlinked then old(ops) + [Removed(p, size, true)] else old(ops)
      ensures statCode == Success && size == BLOCK_SIZE && inited ==>
                code == fsync && ops == old(ops) + [Removed(p, size, code == Success)]
      ensures statCode == Success && size == BLOCK_SIZE && !inited ==> code == NotInit && ops == old(ops)
      ensures inUse == old(inUse)
                       - if statCode == Success && size == 67108864 && inited && fsync == Success then 1 else 0
      ensures Files() == if statCode == Success && (if size == 67108864 then inited else unlinked)
                         then old(Files()) - {p} else old(Files())
    {
      if statCode != Success {
        code := statCode;
      } else if size != BLOCK_SIZE {
        RemoveOther(p, size, unlinked);
        code := Success;
      } else {
        code := RemoveBlock(p, fsync);
      }
    }

    /** A file of another size goes, or stays, without being counted off. */
    method RemoveOther(p: Path, size: int, unlinked: bool)
      requires Valid() && p in Files() && Files()[p] == size && size != 67108864
      modifies this`inUse, this`ops
      ensures Valid() && start == old(start) && inUse == old(inUse)
      ensures ops == if unlinked then old(ops) + [Removed(p, size, true)] else old(ops)
      ensures Files() == if unlinked then old(Files()) - {p} else old(Files())
    {
      if unlinked {
        NoteRemoved(p, size, true);
      }
    }

    /** A block goes back; it is counted off once the directory is flushed. */
    method RemoveBlock(p: Path, fsync: Code) returns (code: Code)
      requires Valid() && p in Files() && Files()[p] == 67108864
      modifies this`inUse, this`ops
      ensures Valid() && start == old(start)
      ensures code == if inited then fsync else NotInit
      ensures ops == if inited then old(ops) + [Removed(p, 67108864, fsync == Success)] else old(ops)
      ensures inUse == old(inUse) - if inited && fsync == Success then 1 else 0
      ensures Files() == if inited then old(Files()) - {p} else old(Files())
    {
      if !inited {
        code := NotInit;
      } else {
        NoteRemoved(p, BLOCK_SIZE, fsync == Success);
        code := fsync;
      }
    }

    /** The file is gone; it is counted off if it was a block and the directory was flushed. */
    method NoteRemoved(p: Path, size: int, synced: bool)
      requires Valid() && p in Files() && Files()[p] == size
      modifies this`inUse, this`ops
      ensures Valid() && start == old(start) && ops == old(ops) + [Removed(p, size, synced)]
      ensures inUse == old(inUse) - if size == 67108864 && synced then 1 else 0
      ensures Files() == old(Files()) - {p}
    {
      RemoveStep(start, ops, p, size, synced);
      ops := ops + [Removed(p, size, synced)];
      if size == BLOCK_SIZE && synced {
        inUse := inUse - 1;
      }
    }

    /** Palf gives a block its final name. */
    method RenameBlock(p: Path, q: Path)
      requires Valid() && p in Files() && q !in Files()
      modifies this`ops
      ensures Valid() && start == old(start) && ops == old(ops) + [Renamed(p, q)]
      ensures Files() == (old(Files()) - {p})[q := old(Files())[p]]
    {
      OneMore(start, ops, Renamed(p, q));
      ops := ops + [Renamed(p, q)];
    }

    /** A fresh scan, whenever it succeeds, finds the counter less what is off. */
    method Recount(entries: seq<Node>) returns (code: Code, count: nat)
      requires Valid() && Shows(entries, Files())
      ensures code == Success ==> count == inUse - Drift(ops)
      ensures code == Success ==> (count == inUse <==> Drift(ops) == 0)
    {
      code, count := ScanLogDisk(entries);
    }
  }

  /** Only operations that answered success. */
  predicate AllSynced(ops: seq<Op>) {
    forall i :: 0 <= i < |ops| ==> (ops[i].Created? || ops[i].Removed? ==> ops[i].synced)
  }

  predicate WrongSizeRemoved(op: Op) {
    op.Removed? && op.size != BLOCK_SIZE
  }

  /** When every call answered success, the counter is what a fresh scan finds exactly when no file
      of another size was removed; it is never too low. */
  lemma {:induction false} DriftIff(ops: seq<Op>)
    requires AllSynced(ops)
    ensures 0 <= Drift(ops)
    ensures Drift(ops) == 0 <==> forall i :: 0 <= i < |ops| ==> !WrongSizeRemoved(ops[i])
  {
    if ops != [] {
      var front := ops[..|ops| - 1];
      DriftIff(front);
      assert forall i :: 0 <= i < |front| ==> front[i] == ops[i];
    }
  }

  /** One file of another size, removed with success, leaves the counter one too high. */
  lemma WrongSizeExample()
    ensures var p := Path("1", "log", "7");
            var start := map[p := 100];
            var ops := [Removed(p, 100, true)];
            Fits(start, ops) && AllSynced(ops) && Drift(ops) == 1 && FilesAfter(start, ops) == map[]
  {
    var p := Path("1", "log", "7");
    var ops := [Removed(p, 100, true)];
    assert ops[..0] == [];
    assert Fits(map[p := 100], []) && FilesAfter(map[p := 100], []) == map[p := 100];
    assert Drift([]) == 0;
  }
}
