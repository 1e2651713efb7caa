/** The sizes that a cluster's machines are given: Trino's memory, and the disks' cache directories. */
module ClusterSizing {
  import opened Printing

  // ----- Memory -----

  /** All in GiB. */
  datatype Memory = Memory(ram: nat, heap: nat, headroom: nat, perNode: nat, total: nat)

  function TrinoMemorySettings(ram: nat): Memory {
    var heap := Max(2, ram * 7 / 10);
    var headroom := Max(1, heap * 3 / 10);
    var perNode := Max(1, heap - headroom - 1);
    Memory(ram, heap, headroom, perNode, perNode * 2)
  }

  /** What Trino checks at its start holds for every machine; there
      is a GiB of slack exactly from a heap of 3 GiB on. */
  lemma QueryMemoryFits(ram: nat)
    ensures var m := TrinoMemorySettings(ram);
      && m.headroom + m.perNode <= m.heap
      && (m.headroom + m.perNode == m.heap - 1 <==> m.heap >= 3)
      && (m.headroom + m.perNode == m.heap <==> m.heap == 2)
      && (m.heap == 2 <==> ram <= 4)
  {
    var m := TrinoMemorySettings(ram);
    assert m.heap >= 2 && m.headroom >= 1;
    assert m.heap >= 3 ==> m.headroom <= m.heap - 2;
  }

  /** The heap is the largest whole part of seven tenths of the memory, but two; the headroom that of three tenths of
      the heap, but one; a query gets what is left on a node less one GiB, but one, and twice that in all. */
  lemma SharesOfMemory(ram: nat)
    ensures var m := TrinoMemorySettings(ram);
      && m.ram == ram
      && (if 7 * ram < 20 then m.heap == 2 else 10 * m.heap <= 7 * ram < 10 * (m.heap + 1))
      && (if 3 * m.heap < 10 then m.headroom == 1 else 10 * m.headroom <= 3 * m.heap < 10 * (m.headroom + 1))
      && (if m.heap <= m.headroom + 2 then m.perNode == 1 else m.headroom + m.perNode + 1 == m.heap)
      && m.total == m.perNode + m.perNode
  {}

  // ----- Catalogs that are cached -----

  datatype Connector = Connector(kind: string, name: string)

  datatype Catalog = Catalog(name: string, enabled: bool, connector: string)

  const INSTANCE_STORE_CACHE_BUDGET_PCT := 90
  const TRINO_CACHE_MOUNT_ROOT := "/mnt/trino-cache"

  predicate IsName(name: string) {
    && 1 <= |name| <= 63
    && 'a' <= name[0] <= 'z'
    && forall i :: 0 < i < |name| ==> 'a' <= name[i] <= 'z' || '0' <= name[i] <= '9' || name[i] == '_'
  }

  predicate IsCached(catalog: Catalog, attached: seq<string>, registry: map<string, Connector>) {
    && catalog.name in attached && IsName(catalog.name)
    && catalog.enabled
    && catalog.connector in registry && registry[catalog.connector].kind == "s3_glue"
    && registry[catalog.connector].name != "hudi"
  }

  method FsCacheCatalogNames(attached: seq<string>, catalogs: seq<Catalog>, registry: map<string, Connector>)
    returns (names: seq<string>)
    ensures names == CachedNames(attached, catalogs, registry)
  {
    names := [];
    for i := 0 to |catalogs|
      invariant names == CachedNames(attached, catalogs[..i], registry)
    {
      assert catalogs[..i + 1][..i] == catalogs[..i];
      var catalog := catalogs[i];
      if catalog.name !in attached || !IsName(catalog.name) { continue; }
      if !catalog.enabled { continue; }
      if catalog.connector !in registry || registry[catalog.connector].kind != "s3_glue" { continue; }
      var connector := registry[catalog.connector];
      if (if connector.name == "" then "iceberg" else connector.name) == "hudi" { continue; }
      names := names + [catalog.name];
    }
    assert catalogs[..|catalogs|] == catalogs;
  }

  function CachedNames(attached: seq<string>, catalogs: seq<Catalog>, registry: map<string, Connector>): seq<string> {
    if catalogs == [] then []
    else
      CachedNames(attached, catalogs[..|catalogs| - 1], registry) +
      if IsCached(catalogs[|catalogs| - 1], attached, registry) then [catalogs[|catalogs| - 1].name] else []
  }

  const SMALL_LETTERS := "abcdefghijklmnopqrstuvwxyz"
  const DECIMALS := "0123456789"
  const NAME_CHARACTERS := SMALL_LETTERS + DECIMALS + "_"

  /** What makes a catalog eligible, told from its entry and the connectors. */
  lemma EligibleCatalogs(catalog: Catalog, attached: seq<string>, registry: map<string, Connector>)
    ensures CachedNames([], [], registry) == []
    ensures CachedNames(attached, [catalog], registry) ==
      if && catalog.enabled && catalog.name in attached && 0 < |catalog.name| < 64
         && catalog.name[0] in SMALL_LETTERS && (forall c :: c in catalog.name ==> c in NAME_CHARACTERS)
         && catalog.connector in registry && registry[catalog.connector].kind == "s3_glue"
         && registry[catalog.connector].name != "hudi"
      then [catalog.name] else []
  {
    NameCharacters(catalog.name);
    hide IsName, NAME_CHARACTERS, SMALL_LETTERS;
    assert [catalog][..0] == [];
    assert CachedNames(attached, [], registry) == [];
  }

  lemma NameCharacters(name: string)
    ensures IsName(name) <==>
      0 < |name| < 64 && name[0] in SMALL_LETTERS && forall c :: c in name ==> c in NAME_CHARACTERS
  {
    hide SMALL_LETTERS, DECIMALS;
    forall c
      ensures c in SMALL_LETTERS <==> 'a' <= c <= 'z'
      ensures c in NAME_CHARACTERS <==> 'a' <= c <= 'z' || '0' <= c <= '9' || c == '_'
    {
      SmallLetter(c);
      Decimal(c);
    }
    hide NAME_CHARACTERS;
    assert name != "" ==> name[0] in name;
    assert forall i :: 0 < i < |name| ==> name[i] in name;
  }

  lemma SmallLetter(c: char)
    ensures c in SMALL_LETTERS <==> 'a' <= c <= 'z'
  {
    var letters := SMALL_LETTERS;
    if 'a' <= c <= 'z' { assert letters[c as int - 'a' as int] == c; }
  }

  lemma Decimal(c: char)
    ensures c in DECIMALS <==> '0' <= c <= '9'
  {
    var digits := DECIMALS;
    if '0' <= c <= '9' { assert digits[c as int - '0' as int] == c; }
  }

  /** The eligible catalogs of two lists are those of the one and then those of the other: none moves, none is lost. */
  lemma {:induction false} CachedNamesInOrder(attached: seq<string>, some: seq<Catalog>, more: seq<Catalog>,
      registry: map<string, Connector>)
    ensures CachedNames(attached, some + more, registry) ==
            CachedNames(attached, some, registry) + CachedNames(attached, more, registry)
  {
    if more == [] {
      assert some + more == some;
    } else {
      var init, last := more[..|more| - 1], more[|more| - 1];
      assert (some + more)[..|some + more| - 1] == some + init;
      CachedNamesInOrder(attached, some, init, registry);
    }
  }

  /** Every catalog that is cached is attached, enabled and fit to name a directory. */
  lemma {:induction false} CachedNamesAreNames(attached: seq<string>,
      catalogs: seq<Catalog>, registry: map<string, Connector>)
    ensures forall i :: 0 <= i < |CachedNames(attached, catalogs, registry)| ==>
      IsName(CachedNames(attached, catalogs, registry)[i]) && CachedNames(attached, catalogs, registry)[i] in attached
    ensures forall name :: name in CachedNames(attached, catalogs, registry) <==>
      exists i :: 0 <= i < |catalogs| && catalogs[i].name == name && IsCached(catalogs[i], attached, registry)
  {
    if catalogs != [] {
      var init := catalogs[..|catalogs| - 1];
      CachedNamesAreNames(attached, init, registry);
      assert forall i :: 0 <= i < |init| ==> init[i] == catalogs[i];
    }
  }

  // ----- The disks -----

  datatype CatalogCache = CatalogCache(directories: seq<string>, usagePct: nat)

  function UsagePct(cached: nat): nat
    requires cached > 0
  {
    Max(1, INSTANCE_STORE_CACHE_BUDGET_PCT / cached)
  }

  function Directory(disk: nat, name: string): string {
    TRINO_CACHE_MOUNT_ROOT + "/disk" + Digits(disk) + "/" + name
  }

  function Directories(name: string, disks: nat): seq<string> {
    seq(disks, disk requires 0 <= disk < disks => Directory(disk, name))
  }

  function FsCacheLayout(cached: seq<string>, disks: int): map<string, CatalogCache> {
    if disks < 1 || cached == [] then map[]
    else map name | name in cached :: name := CatalogCache(Directories(name, disks), UsagePct(|cached|))
  }

  /** What these catalogs may use of one disk, together. */
  ghost function Usage(names: set<string>, layout: map<string, CatalogCache>): nat
    requires names <= layout.Keys
  {
    if names == {} then 0
    else
      var name :| name in names;
      layout[name].usagePct + Usage(names - {name}, layout)
  }

  lemma {:induction false} UsageAddsUp(names: set<string>, layout: map<string, CatalogCache>, pct: nat)
    requires names <= layout.Keys && forall name :: name in names ==> layout[name].usagePct == pct
    ensures Usage(names, layout) == |names| * pct
  {
    if names != {} {
      var name :| name in names && Usage(names, layout) == layout[name].usagePct + Usage(names - {name}, layout);
      UsageAddsUp(names - {name}, layout, pct);
      assert |names| == |names - {name}| + 1;
      OneShareMore(|names - {name}|, pct);
    }
  }

  lemma OneShareMore(n: nat, pct: nat)
    ensures (n + 1) * pct == n * pct + pct
  {}

  predicate Distinct(names: seq<string>) {
    forall i, j :: 0 <= i < j < |names| ==> names[i] != names[j]
  }

  lemma {:induction false} NoMoreThanListed(names: seq<string>)
    ensures |set name | name in names| <= |names|
    ensures Distinct(names) ==> |set name | name in names| == |names|
  {
    if names != [] {
      var init, last := names[..|names| - 1], names[|names| - 1];
      NoMoreThanListed(init);
      assert names == init + [last];
      assert (set name | name in names) == (set name | name in init) + {last};
    }
  }

  /** The catalogs stay within the disks' budget if and only if there are no more of them than it has percents,
      however often each is listed; and when each is listed once, less than one percent for each of them is left. */
  lemma UsageIsWithinBudget(cached: seq<string>, disks: int)
    requires cached != [] && disks >= 1
    ensures var layout := FsCacheLayout(cached, disks);
      && (Usage(layout.Keys, layout) <= INSTANCE_STORE_CACHE_BUDGET_PCT <==>
        |layout.Keys| <= INSTANCE_STORE_CACHE_BUDGET_PCT)
      && (Distinct(cached) && |cached| <= INSTANCE_STORE_CACHE_BUDGET_PCT ==>
          INSTANCE_STORE_CACHE_BUDGET_PCT < Usage(layout.Keys, layout) + |cached|)
  {
    var layout := FsCacheLayout(cached, disks);
    UsageAddsUp(layout.Keys, layout, UsagePct(|cached|));
    assert layout.Keys == set name | name in cached;
    NoMoreThanListed(cached);
    SharesAddUp(|layout.Keys|, |cached|, INSTANCE_STORE_CACHE_BUDGET_PCT);
  }

  lemma SharesAddUp(k: nat, n: nat, budget: nat)
    requires 0 < n && k <= n
    ensures k * Max(1, budget / n) <= budget <==> k <= budget
    ensures k == n <= budget ==> budget < k * Max(1, budget / n) + n
  {
    var share, rest := budget / n, budget % n;
    assert budget == n * share + rest;
    if n <= budget {
      assert share >= 1;
      SmallerShare(k, n, share);
    } else {
      assert share == 0;
    }
  }

  lemma SmallerShare(k: nat, n: nat, share: nat)
    requires k <= n
    ensures k * share <= n * share
  {}

  lemma NoSeparators(name: string, disk: nat)
    requires IsName(name)
    ensures '/' !in name && '/' !in Digits(disk) && ',' !in Directory(disk, name)
  {
    assert ',' !in TRINO_CACHE_MOUNT_ROOT && ',' !in "/disk" && ',' !in name && ',' !in Digits(disk);
  }

  /** No two catalogs share a directory, on any disks, and no catalog has one twice. */
  lemma DirectoriesDiffer(disk: nat, name: string, other: nat, named: string)
    requires IsName(name) && IsName(named) && Directory(disk, name) == Directory(other, named)
    ensures disk == other && name == named
  {
    NoSeparators(name, disk);
    NoSeparators(named, other);
    BehindTheRoot(disk, name);
    BehindTheRoot(other, named);
    hide Digits, Directory, TRINO_CACHE_MOUNT_ROOT, IsName;
    PartsDiffer(Digits(disk), name, Digits(other), named, '/');
    DigitsDiffer(disk, other);
  }

  /** The layout has an entry for each cached catalog, with its own directory on each disk in turn and the largest
      whole share of ninety percent, but one. */
  lemma LayoutOfEach(cached: seq<string>, disks: int, name: string)
    requires disks >= 1
    ensures var layout := FsCacheLayout(cached, disks);
      && (name in layout <==> name in cached)
      && (name in layout ==>
          && |layout[name].directories| == disks
          && (forall k: nat :: k < disks ==>
                layout[name].directories[k] == "/mnt/trino-cache" + "/disk" + Digits(k) + "/" + name)
          && if 90 < |cached| then layout[name].usagePct == 1
             else |cached| * layout[name].usagePct <= 90 < |cached| * (layout[name].usagePct + 1))
  {
    if name in cached {
      assert |cached| > 0;
      LargestShare(|cached|);
    }
  }

  lemma LargestShare(n: nat)
    requires n > 0
    ensures if 90 < n then UsagePct(n) == 1 else n * UsagePct(n) <= 90 < n * (UsagePct(n) + 1)
  {
    var share, rest := 90 / n, 90 % n;
    assert 90 == n * share + rest;
    assert n * (share + 1) == n * share + n;
    if 90 < n { assert share == 0; } else { assert share >= 1; }
  }

  /** There is no layout without disks. */
  lemma NoDisksNoLayout(cached: seq<string>, disks: int)
    ensures disks < 1 ==> FsCacheLayout(cached, disks) == map[]
  {}

  /** No directory of the layout is given twice, on any two disks of any two catalogs. */
  lemma DirectoriesAreApart(cached: seq<string>, disks: int, m: string, i: nat, n: string, j: nat)
    requires disks >= 1 && (forall name :: name in cached ==> IsName(name)) && m in cached && n in cached
    requires i < disks && j < disks
    ensures var layout := FsCacheLayout(cached, disks);
      && m in layout && n in layout && |layout[m].directories| == |layout[n].directories| == disks
      && (layout[m].directories[i] == layout[n].directories[j] <==> m == n && i == j)
  {
    LayoutOfEach(cached, disks, m);
    LayoutOfEach(cached, disks, n);
    hide FsCacheLayout, Digits, IsName;
    if FsCacheLayout(cached, disks)[m].directories[i] == FsCacheLayout(cached, disks)[n].directories[j] {
      DirectoriesDiffer(i, m, j, n);
    }
  }

  lemma BehindTheRoot(disk: nat, name: string)
    ensures |Directory(disk, name)| >= 21 && Directory(disk, name)[21..] == Digits(disk) + ['/'] + name
  {
    hide Digits;
    var root := TRINO_CACHE_MOUNT_ROOT + "/disk";
    assert |root| == 21;
    hide TRINO_CACHE_MOUNT_ROOT;
    assert Directory(disk, name) == root + (Digits(disk) + ['/'] + name);
  }

  function Percentages(cache: CatalogCache): seq<string> {
    seq(|cache.directories|, _ => Digits(cache.usagePct))
  }

  /** The lines of a catalog's properties. */
  function CacheLines(cache: CatalogCache): seq<string> {
    ["fs.cache.enabled=true",
     "fs.cache.directories=" + Join(cache.directories, ','),
     "fs.cache.max-disk-usage-percentages=" + Join(Percentages(cache), ',')]
  }

  /** Read at their commas, the two lists name every directory of the catalog and one percentage for each. */
  lemma ListsHaveOneValueEach(cached: seq<string>, disks: int, name: string)
    requires disks >= 1 && name in cached && IsName(name)
    ensures name in FsCacheLayout(cached, disks)
    ensures var cache := FsCacheLayout(cached, disks)[name];
      && |CacheLines(cache)| == 3 && CacheLines(cache)[0] == "fs.cache.enabled=true"
      && CacheLines(cache)[1] == "fs.cache.directories=" + Join(Directories(name, disks), ',')
      && SplitAt(Join(Directories(name, disks), ','), ',') == Directories(name, disks)
      && CacheLines(cache)[2] == "fs.cache.max-disk-usage-percentages=" + Join(Percentages(cache), ',')
      && SplitAt(Join(Percentages(cache), ','), ',') == seq(disks, _ => Digits(UsagePct(|cached|)))
  {
    var cache := FsCacheLayout(cached, disks)[name];
    forall disk: nat | disk < disks ensures ',' !in Directory(disk, name) { NoSeparators(name, disk); }
    SplitOfJoin(Directories(name, disks), ',');
    SplitOfJoin(Percentages(cache), ',');
  }
}
