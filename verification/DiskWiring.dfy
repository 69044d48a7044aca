/**
 From a catalog manifest's storage list to the disks, volumes and DataVolume
 templates of a VM: validateManifest (internal/workloads/catalog.go), the slice
 builders of GenericWorkload (internal/workloads/generic.go, generic_multi.go),
 NamespaceDataVolumes (internal/orchestrator/types.go) and BuildVMSpec
 (internal/vm/vm.go).
 */
module DiskWiring {
  import opened Options
  import opened Cluster
  import opened Naming

  const CONTAINER_DISK := "containerdisk"
  const CLOUD_INIT_DISK := "cloudinitdisk"
  const DATA_DISK := "datadisk"

  datatype StorageDefinition = StorageDefinition(name: string, size: string, serial: string, mount: string)

  datatype ServicePort = ServicePort(name: string, port: int, protocol: string)

  datatype ServiceDefinition = ServiceDefinition(ports: seq<ServicePort>, selectorRole: string)

  datatype Manifest = Manifest(storage: seq<StorageDefinition>, service: Option<ServiceDefinition>)

  // ---------------------------------------------------------------------
  // validateManifest
  // ---------------------------------------------------------------------

  datatype ManifestError =
    | NameEmpty | NameReserved(name: string) | NameDuplicate(name: string) | SizeInvalid(size: string)
    | SerialEmpty | SerialTooLong(serial: string) | MountNotAbsolute(mount: string)
    | PortsEmpty | PortRange(port: int) | BadProtocol(protocol: string)

  const RESERVED := {CONTAINER_DISK, CLOUD_INIT_DISK, DATA_DISK}

  /** A name that a manifest may not give to its storage. */
  predicate Reserved(name: string) { name in {"containerdisk", "cloudinitdisk", "datadisk"} }

  /** resource.ParseQuantity is a parameter: which texts it accepts. */
  type Quantities = string -> bool

  predicate GoodStorage(s: StorageDefinition, isQuantity: Quantities) {
    && s.name != "" && !Reserved(s.name)
    && isQuantity(s.size)
    && 0 < |s.serial| <= 20
    && s.mount != "" && s.mount[0] == '/'
  }

  function ToUpper(s: string): string {
    seq(|s|, i requires 0 <= i < |s| => if 'a' <= s[i] <= 'z' then s[i] - 'a' + 'A' else s[i])
  }

  predicate GoodPort(p: ServicePort) {
    1 <= p.port <= 65535 && (p.protocol == "" || SpellsTCP(p.protocol) || SpellsUDP(p.protocol))
  }

  predicate SpellsTCP(s: string) {
    |s| == 3 && s[0] in {'t', 'T'} && s[1] in {'c', 'C'} && s[2] in {'p', 'P'}
  }

  predicate SpellsUDP(s: string) {
    |s| == 3 && s[0] in {'u', 'U'} && s[1] in {'d', 'D'} && s[2] in {'p', 'P'}
  }

  /** Protocols are compared without regard to case. */
  lemma UpperMeans(s: string)
    ensures ToUpper(s) == "" <==> s == ""
    ensures ToUpper(s) == "TCP" <==> SpellsTCP(s)
    ensures ToUpper(s) == "UDP" <==> SpellsUDP(s)
  {
    var t := ToUpper(s);
    if SpellsTCP(s) {
      assert t == "TCP";
    }
    if SpellsUDP(s) {
      assert t == "UDP";
    }
    if t == "TCP" {
      assert t[0] == 'T' && t[1] == 'C' && t[2] == 'P';
    }
    if t == "UDP" {
      assert t[0] == 'U' && t[1] == 'D' && t[2] == 'P';
    }
  }

  predicate DistinctNames(storage: seq<StorageDefinition>) {
    forall i, j | 0 <= i < j < |storage| :: storage[i].name != storage[j].name
  }

  predicate Acceptable(m: Manifest, isQuantity: Quantities) {
    && GoodEntries(m.storage, isQuantity)
    && (m.service.Some? ==> m.service.value.ports != [] && forall p <- m.service.value.ports :: GoodPort(p))
  }

  predicate Taken(before: seq<StorageDefinition>, name: string) {
    exists b <- before :: b.name == name
  }

  /** The fault of a storage entry when it has none of the faults listed earlier. */
  predicate IsEntryFault(taken: bool, s: StorageDefinition, isQuantity: Quantities, e: ManifestError) {
    match e
    case NameEmpty => s.name == ""
    case NameReserved(name) => name == s.name && Reserved(name)
    case NameDuplicate(name) => name == s.name != "" && !Reserved(name) && taken
    case SizeInvalid(size) => s.name != "" && !Reserved(s.name) && !taken && size == s.size && !isQuantity(size)
    case SerialEmpty => s.name != "" && !Reserved(s.name) && !taken && isQuantity(s.size) && s.serial == ""
    case SerialTooLong(serial) =>
      s.name != "" && !Reserved(s.name) && !taken && isQuantity(s.size) && serial == s.serial && |serial| > 20
    case MountNotAbsolute(mount) =>
      && s.name != "" && !Reserved(s.name) && !taken && isQuantity(s.size) && 0 < |s.serial| <= 20
      && mount == s.mount && (mount == "" || mount[0] != '/')
    case _ => false
  }

  predicate IsPortFault(p: ServicePort, e: ManifestError) {
    match e
    case PortRange(port) => port == p.port && !(1 <= port <= 65535)
    case BadProtocol(protocol) =>
      && 1 <= p.port <= 65535
      && protocol == p.protocol != "" && !SpellsTCP(protocol) && !SpellsUDP(protocol)
    case _ => false
  }

  predicate GoodEntries(storage: seq<StorageDefinition>, isQuantity: Quantities) {
    (forall s <- storage :: GoodStorage(s, isQuantity)) && DistinctNames(storage)
  }

  /** The error names the first fault of the manifest: storage before service, entry by entry. */
  ghost predicate IsFirstFault(m: Manifest, isQuantity: Quantities, e: ManifestError) {
    || (exists n :: 0 <= n < |m.storage| && GoodEntries(m.storage[..n], isQuantity)
                    && IsEntryFault(Taken(m.storage[..n], m.storage[n].name), m.storage[n], isQuantity, e))
    || (GoodEntries(m.storage, isQuantity) && m.service.Some? && (
          || (e.PortsEmpty? && m.service.value.ports == [])
          || (exists n :: 0 <= n < |m.service.value.ports| && (forall p <- m.service.value.ports[..n] :: GoodPort(p))
                          && IsPortFault(m.service.value.ports[n], e))))
  }

  method ValidateManifest(m: Manifest, isQuantity: Quantities) returns (err: Option<ManifestError>)
    ensures err.None? <==> Acceptable(m, isQuantity)
    ensures err.Some? ==> IsFirstFault(m, isQuantity, err.value)
  {
    hide GoodEntries, IsEntryFault, IsPortFault, GoodPort, Taken;
    err := ValidateStorage(m.storage, isQuantity);
    if err.Some? {
      return;
    }
    if m.service.Some? {
      var ports := m.service.value.ports;
      if |ports| == 0 {
        return Some(PortsEmpty);
      }
      err := ValidatePorts(ports);
      assert ports == m.service.value.ports;
    }
  }

  /** The loop over the storage entries. */
  method ValidateStorage(storage: seq<StorageDefinition>, isQuantity: Quantities) returns (err: Option<ManifestError>)
    ensures err.None? <==> GoodEntries(storage, isQuantity)
    ensures err.Some? ==> exists n :: 0 <= n < |storage| && GoodEntries(storage[..n], isQuantity)
                                      && IsEntryFault(Taken(storage[..n], storage[n].name), storage[n], isQuantity,
                                                      err.value)
  {
    var seen: set<string> := {};
    for n := 0 to |storage|
      invariant GoodEntries(storage[..n], isQuantity)
      invariant forall name :: name in seen <==> Taken(storage[..n], name)
    {
      OneMoreEntry(storage, n, isQuantity);
      hide GoodEntries, Taken, GoodStorage, IsEntryFault;
      err := ValidateEntry(storage[n], seen, isQuantity);
      if err.Some? {
        return;
      }
      seen := seen + {storage[n].name};
    }
    assert storage[..|storage|] == storage;
    return None;
  }

  method ValidateEntry(s: StorageDefinition, seen: set<string>, isQuantity: Quantities)
    returns (err: Option<ManifestError>)
    ensures err.None? <==> GoodStorage(s, isQuantity) && s.name !in seen
    ensures err.Some? ==> IsEntryFault(s.name in seen, s, isQuantity, err.value)
  {
    if s.name == "" {
      return Some(NameEmpty);
    }
    if s.name in RESERVED {
      return Some(NameReserved(s.name));
    }
    if s.name in seen {
      return Some(NameDuplicate(s.name));
    }
    if !isQuantity(s.size) {
      return Some(SizeInvalid(s.size));
    }
    if s.serial == "" {
      return Some(SerialEmpty);
    }
    if |s.serial| > 20 {
      return Some(SerialTooLong(s.serial));
    }
    if s.mount == "" || s.mount[0] != '/' {
      return Some(MountNotAbsolute(s.mount));
    }
    return None;
  }

  lemma OneMoreEntry(storage: seq<StorageDefinition>, n: nat, isQuantity: Quantities)
    requires n < |storage|
    ensures GoodEntries(storage[..n + 1], isQuantity)
            <==> GoodEntries(storage[..n], isQuantity) && GoodStorage(storage[n], isQuantity)
                 && !Taken(storage[..n], storage[n].name)
    ensures forall name :: Taken(storage[..n + 1], name) <==> Taken(storage[..n], name) || storage[n].name == name
    ensures GoodEntries(storage, isQuantity) ==> GoodEntries(storage[..n + 1], isQuantity)
  {
    hide GoodStorage;
    assert storage[..n + 1] == storage[..n] + [storage[n]];
  }

  /** The loop over the ports. */
  method ValidatePorts(ports: seq<ServicePort>) returns (err: Option<ManifestError>)
    ensures err.None? <==> forall p <- ports :: GoodPort(p)
    ensures err.Some? ==> exists n :: 0 <= n < |ports| && (forall p <- ports[..n] :: GoodPort(p))
                                      && IsPortFault(ports[n], err.value)
  {
    for n := 0 to |ports|
      invariant forall p <- ports[..n] :: GoodPort(p)
    {
      assert ports[n] in ports;
      if ports[n].port < 1 || ports[n].port > 65535 {
        return Some(PortRange(ports[n].port));
      }
      var proto := ToUpper(ports[n].protocol);
      UpperMeans(ports[n].protocol);
      if proto != "" && proto != "TCP" && proto != "UDP" {
        return Some(BadProtocol(ports[n].protocol));
      }
      assert ports[..n + 1] == ports[..n] + [ports[n]];
    }
    assert ports[..|ports|] == ports;
    return None;
  }

  // ---------------------------------------------------------------------
  // What a workload adds to its VMs
  // ---------------------------------------------------------------------

  datatype Storage = Storage(disks: seq<Disk>, volumes: seq<Volume>, templates: seq<DataVolumeTemplate>)

  function CatalogStorage(storage: seq<StorageDefinition>): Storage {
    Storage(
      seq(|storage|, i requires 0 <= i < |storage| => Disk(storage[i].name, storage[i].serial)),
      seq(|storage|, i requires 0 <= i < |storage| => Volume(storage[i].name, DataVolumeRef(storage[i].name))),
      seq(|storage|, i requires 0 <= i < |storage| => DataVolumeTemplate(storage[i].name, storage[i].size)))
  }

  method ExtraDisks(storage: seq<StorageDefinition>) returns (disks: seq<Disk>)
    ensures disks == CatalogStorage(storage).disks
    ensures |disks| == |storage|
    ensures forall i | 0 <= i < |storage| :: disks[i].name == storage[i].name && disks[i].serial == storage[i].serial
  {
    disks := [];
    for i := 0 to |storage|
      invariant disks == CatalogStorage(storage).disks[..i]
    {
      disks := disks + [Disk(storage[i].name, storage[i].serial)];
    }
  }

  method ExtraVolumes(storage: seq<StorageDefinition>) returns (volumes: seq<Volume>)
    ensures volumes == CatalogStorage(storage).volumes
    ensures |volumes| == |storage|
    ensures forall i | 0 <= i < |storage| ::
              volumes[i].name == storage[i].name && volumes[i].source == DataVolumeRef(storage[i].name)
  {
    volumes := [];
    for i := 0 to |storage|
      invariant volumes == CatalogStorage(storage).volumes[..i]
    {
      volumes := volumes + [Volume(storage[i].name, DataVolumeRef(storage[i].name))];
    }
  }

  method DataVolumeTemplates(storage: seq<StorageDefinition>, isQuantity: Quantities)
    returns (templates: Option<seq<DataVolumeTemplate>>)
    ensures templates == if forall s <- storage :: isQuantity(s.size)
                         then Some(CatalogStorage(storage).templates) else None
    ensures templates.Some? ==> |templates.value| == |storage| && forall i | 0 <= i < |storage| ::
              templates.value[i].name == storage[i].name && templates.value[i].size == storage[i].size
  {
    var dvts: seq<DataVolumeTemplate> := [];
    for i := 0 to |storage|
      invariant forall s <- storage[..i] :: isQuantity(s.size)
      invariant dvts == CatalogStorage(storage).templates[..i]
    {
      assert storage[i] in storage;
      if !isQuantity(storage[i].size) {
        return None;
      }
      dvts := dvts + [DataVolumeTemplate(storage[i].name, storage[i].size)];
      assert storage[..i + 1] == storage[..i] + [storage[i]];
    }
    assert storage[..|storage|] == storage;
    assert dvts == CatalogStorage(storage).templates;
    return Some(dvts);
  }

  /** The data disk of the built-in disk workloads. */
  function DataDiskStorage(template: string, serial: string, size: string): Storage {
    Storage([Disk(DATA_DISK, serial)], [Volume(DATA_DISK, DataVolumeRef(template))], [DataVolumeTemplate(template, size)])
  }

  // ---------------------------------------------------------------------
  // Well-wired storage
  // ---------------------------------------------------------------------

  predicate DistinctTemplates(templates: seq<DataVolumeTemplate>) {
    forall i, j | 0 <= i < j < |templates| :: templates[i].name != templates[j].name
  }

  /** Disk and volume names agree position by position, and no two positions share one. */
  predicate PairedAndDistinct(disks: seq<Disk>, volumes: seq<Volume>) {
    && |disks| == |volumes|
    && (forall i | 0 <= i < |disks| :: disks[i].name == volumes[i].name)
    && (forall i, j | 0 <= i < j < |disks| :: disks[i].name != disks[j].name)
  }

  /** Every DataVolume reference names a template, and template names are unique. */
  predicate ReferencesResolve(volumes: seq<Volume>, templates: seq<DataVolumeTemplate>) {
    && DistinctTemplates(templates)
    && (forall v <- volumes | v.source.DataVolumeRef? ::
          exists k :: 0 <= k < |templates| && templates[k].name == v.source.template)
  }

  predicate WellWired(s: Storage) {
    && PairedAndDistinct(s.disks, s.volumes)
    && ReferencesResolve(s.volumes, s.templates)
    && (forall v <- s.volumes :: v.source.DataVolumeRef?)
    && (forall d <- s.disks :: d.name != CONTAINER_DISK && d.name != CLOUD_INIT_DISK)
  }

  lemma AcceptedStorageIsWired(m: Manifest, isQuantity: Quantities)
    requires Acceptable(m, isQuantity)
    ensures WellWired(CatalogStorage(m.storage))
  {
    var s := CatalogStorage(m.storage);
    forall v <- s.volumes ensures exists k :: 0 <= k < |s.templates| && s.templates[k].name == v.source.template {
      var i :| 0 <= i < |s.volumes| && s.volumes[i] == v;
      assert s.templates[i].name == v.source.template;
    }
    forall d <- s.disks ensures d.name != CONTAINER_DISK && d.name != CLOUD_INIT_DISK {
      var i :| 0 <= i < |s.disks| && s.disks[i] == d;
      assert m.storage[i] in m.storage;
    }
  }

  lemma DataDiskIsWired(template: string, serial: string, size: string)
    ensures WellWired(DataDiskStorage(template, serial, size))
    ensures var s := DataDiskStorage(template, serial, size);
            && |s.disks| == |s.volumes| == |s.templates| == 1
            && s.disks[0].name == "datadisk" && s.disks[0].serial == serial
            && s.volumes[0].source == DataVolumeRef(s.templates[0].name)
            && s.templates[0].name == template && s.templates[0].size == size
  {
    var s := DataDiskStorage(template, serial, size);
    assert s.templates[0].name == template;
    assert DATA_DISK[0] == 'd' && CONTAINER_DISK[0] == 'c';
  }

  /** Where a registered workload has its storage from: most built-in ones have none. */
  datatype StorageSource = NoDisk | DataDisk(template: string, serial: string, size: string) | CatalogDisks(m: Manifest)

  /** `None` is an invalid size. */
  function BuildStorage(source: StorageSource, isQuantity: Quantities): Option<Storage> {
    match source
    case NoDisk => Some(Storage([], [], []))
    case DataDisk(template, serial, size) =>
      if isQuantity(size) then Some(DataDiskStorage(template, serial, size)) else None
    case CatalogDisks(m) =>
      if forall s <- m.storage :: isQuantity(s.size) then Some(CatalogStorage(m.storage)) else None
  }

  /** Every disk a manifest or a built-in workload declares is there, with its serial and size; `None` tells a bad size. */
  lemma StorageIsDeclared(source: StorageSource, isQuantity: Quantities)
    ensures var s := BuildStorage(source, isQuantity);
            match source
            case NoDisk => s.Some? && s.value.disks == [] && s.value.volumes == [] && s.value.templates == []
            case DataDisk(template, serial, size) =>
              && (s.Some? <==> isQuantity(size))
              && (s.Some? ==> |s.value.disks| == |s.value.templates| == 1 && s.value.disks[0] == Disk("datadisk", serial)
                              && s.value.templates[0] == DataVolumeTemplate(template, size))
            case CatalogDisks(m) =>
              && (s.Some? <==> forall d <- m.storage :: isQuantity(d.size))
              && (s.Some? ==>
                    && |s.value.disks| == |s.value.volumes| == |s.value.templates| == |m.storage|
                    && forall i | 0 <= i < |m.storage| ::
                         var d := m.storage[i];
                         && s.value.disks[i] == Disk(d.name, d.serial)
                         && s.value.volumes[i] == Volume(d.name, DataVolumeRef(d.name))
                         && s.value.templates[i] == DataVolumeTemplate(d.name, d.size))
  {
  }

  /** The storage of a workload that can be in a registry: catalog entries are validated when they are loaded. */
  ghost predicate Registered(storage: Option<Storage>, isQuantity: Quantities) {
    exists source: StorageSource ::
      storage == BuildStorage(source, isQuantity) && (source.CatalogDisks? ==> Acceptable(source.m, isQuantity))
  }

  /** Whatever is registered and can be built is well wired. */
  lemma RegisteredStorageIsWired(storage: Option<Storage>, isQuantity: Quantities)
    requires Registered(storage, isQuantity)
    ensures storage.Some? ==> WellWired(storage.value)
  {
    var source: StorageSource :|
      storage == BuildStorage(source, isQuantity) && (source.CatalogDisks? ==> Acceptable(source.m, isQuantity));
    match source
    case NoDisk =>
    case DataDisk(template, serial, size) => DataDiskIsWired(template, serial, size);
    case CatalogDisks(m) => AcceptedStorageIsWired(m, isQuantity);
  }

  // ---------------------------------------------------------------------
  // NamespaceDataVolumes
  // ---------------------------------------------------------------------

  function Renamed(template: string, vmName: string): string {
    template + "-" + vmName
  }

  function TemplateNames(templates: seq<DataVolumeTemplate>): set<string> {
    set i | 0 <= i < |templates| :: templates[i].name
  }

  function RenameVolume(v: Volume, templates: seq<DataVolumeTemplate>, vmName: string): Volume {
    if v.source.DataVolumeRef? && v.source.template in TemplateNames(templates)
    then v.(source := DataVolumeRef(Renamed(v.source.template, vmName))) else v
  }

  /** Only the template names change, and each reference follows its template. */
  function ForVM(s: Storage, vmName: string): Storage {
    s.(templates := seq(|s.templates|, i requires 0 <= i < |s.templates| =>
                          s.templates[i].(name := Renamed(s.templates[i].name, vmName))),
       volumes := seq(|s.volumes|, i requires 0 <= i < |s.volumes| =>
                        RenameVolume(s.volumes[i], s.templates, vmName)))
  }

  method NamespaceDataVolumes(baseTemplates: seq<DataVolumeTemplate>, baseVolumes: seq<Volume>, vmName: string)
    returns (templates: seq<DataVolumeTemplate>, volumes: seq<Volume>)
    ensures forall disks :: Storage(disks, volumes, templates) == ForVM(Storage(disks, baseVolumes, baseTemplates), vmName)
  {
    if |baseTemplates| == 0 {
      return baseTemplates, baseVolumes;
    }
    var nameMap: map<string, string> := map[];
    templates := [];
    for i := 0 to |baseTemplates|
      invariant |templates| == i
      invariant forall k :: 0 <= k < i ==>
                  templates[k] == baseTemplates[k].(name := Renamed(baseTemplates[k].name, vmName))
      invariant nameMap.Keys == TemplateNames(baseTemplates[..i])
      invariant forall name <- nameMap :: nameMap[name] == Renamed(name, vmName)
    {
      var oldName := baseTemplates[i].name;
      var newName := Renamed(oldName, vmName);
      AppendTemplate(baseTemplates, i);
      nameMap := nameMap[oldName := newName];
      templates := templates + [baseTemplates[i].(name := newName)];
    }
    assert baseTemplates[..|baseTemplates|] == baseTemplates;
    volumes := [];
    for i := 0 to |baseVolumes|
      invariant |volumes| == i
      invariant forall k :: 0 <= k < i ==> volumes[k] == RenameVolume(baseVolumes[k], baseTemplates, vmName)
    {
      var vol := baseVolumes[i];
      if vol.source.DataVolumeRef? && vol.source.template in nameMap {
        vol := vol.(source := DataVolumeRef(nameMap[vol.source.template]));
      }
      volumes := volumes + [vol];
    }
  }

  lemma AppendTemplate(templates: seq<DataVolumeTemplate>, n: nat)
    requires n < |templates|
    ensures TemplateNames(templates[..n + 1]) == TemplateNames(templates[..n]) + {templates[n].name}
  {
    forall name | name in TemplateNames(templates[..n]) ensures name in TemplateNames(templates[..n + 1]) {
      var i :| 0 <= i < n && templates[..n][i].name == name;
      assert templates[..n + 1][i].name == name;
    }
    assert templates[..n + 1][n].name == templates[n].name;
    forall name | name in TemplateNames(templates[..n + 1]) && name != templates[n].name
      ensures name in TemplateNames(templates[..n])
    {
      var i :| 0 <= i < n + 1 && templates[..n + 1][i].name == name;
      assert templates[..n][i].name == name;
    }
  }

  /** What a VM has of its workload's storage: the VM's name behind every template's, in the references too. */
  lemma RenamedForVM(s: Storage, vmName: string)
    ensures var t := ForVM(s, vmName);
            && t.disks == s.disks && |t.templates| == |s.templates| && |t.volumes| == |s.volumes|
            && (forall i | 0 <= i < |s.templates| ::
                  t.templates[i].name == s.templates[i].name + "-" + vmName && t.templates[i].size == s.templates[i].size)
            && forall i | 0 <= i < |s.volumes| ::
                 && t.volumes[i].name == s.volumes[i].name
                 && t.volumes[i].source ==
                    if s.volumes[i].source.DataVolumeRef? && exists d <- s.templates :: d.name == s.volumes[i].source.template
                    then DataVolumeRef(s.volumes[i].source.template + "-" + vmName) else s.volumes[i].source
  {
    forall name ensures name in TemplateNames(s.templates) <==> exists d <- s.templates :: d.name == name {
      if d :| d in s.templates && d.name == name {
        var i :| 0 <= i < |s.templates| && s.templates[i] == d;
      }
    }
  }

  lemma RenamingKeepsWiring(s: Storage, vmName: string)
    requires WellWired(s)
    ensures WellWired(ForVM(s, vmName))
  {
    var t := ForVM(s, vmName);
    forall i, j | 0 <= i < j < |t.templates| ensures t.templates[i].name != t.templates[j].name {
      RenamedInjective(s.templates[i].name, s.templates[j].name, vmName);
    }
    forall v <- t.volumes | v.source.DataVolumeRef?
      ensures exists k :: 0 <= k < |t.templates| && t.templates[k].name == v.source.template
    {
      var i :| 0 <= i < |t.volumes| && t.volumes[i] == v;
      assert s.volumes[i] in s.volumes;
      var k :| 0 <= k < |s.templates| && s.templates[k].name == s.volumes[i].source.template;
      assert t.templates[k].name == v.source.template;
    }
  }

  lemma RenamedInjective(a: string, b: string, vmName: string)
    ensures Renamed(a, vmName) == Renamed(b, vmName) ==> a == b
  {
    var s, t := Renamed(a, vmName), Renamed(b, vmName);
    if s == t {
      assert s[..|a|] == a && t[..|b|] == b;
    }
  }

  /** Two VMs of one workload role never share a DataVolume name. */
  lemma TemplatesDifferAcrossVMs(s: Storage, prefix: string, m: nat, n: nat, i: nat, j: nat)
    requires WellWired(s) && i < |s.templates| && j < |s.templates|
    requires ForVM(s, Numbered(prefix, m)).templates[i].name == ForVM(s, Numbered(prefix, n)).templates[j].name
    ensures m == n && i == j
  {
    var a, b := s.templates[i].name, s.templates[j].name;
    assert a + "-" + Numbered(prefix, m) == Numbered(a + "-" + prefix, m);
    assert b + "-" + Numbered(prefix, n) == Numbered(b + "-" + prefix, n);
    NumberedInjective(a + "-" + prefix, b + "-" + prefix, m, n);
    RenamedInjective(a, b, prefix);
  }

  // ---------------------------------------------------------------------
  // BuildVMSpec
  // ---------------------------------------------------------------------

  datatype VMOptions = VMOptions(name: string, namespace: string, image: string, secretName: string, cpuCores: int,
                                 memory: string, labels: Labels, storage: Storage)

  datatype BuildError = InvalidName | InvalidNamespace | InvalidCPUCores(cores: int) | InvalidImage | InvalidSecretName
                      | InvalidMemory(memory: string)

  datatype Built = Built(vm: Object) | BuildFailed(error: BuildError)

  function BuildVMSpec(o: VMOptions, isQuantity: Quantities): Built {
    if o.name == "" then BuildFailed(InvalidName)
    else if o.namespace == "" then BuildFailed(InvalidNamespace)
    else if o.cpuCores <= 0 then BuildFailed(InvalidCPUCores(o.cpuCores))
    else if o.image == "" then BuildFailed(InvalidImage)
    else if o.secretName == "" then BuildFailed(InvalidSecretName)
    else if !isQuantity(o.memory) then BuildFailed(InvalidMemory(o.memory))
    else Built(Object(o.labels, VMSpec(
      o.cpuCores % 0x1_0000_0000,
      o.memory,
      [Disk(CONTAINER_DISK, ""), Disk(CLOUD_INIT_DISK, "")] + o.storage.disks,
      [Volume(CONTAINER_DISK, ContainerDisk(o.image)), Volume(CLOUD_INIT_DISK, CloudInitSecret(o.secretName))]
        + o.storage.volumes,
      o.storage.templates)))
  }

  predicate HasImage(v: Volume) { v.source.ContainerDisk? }

  /** The volumes of a kind, in order. */
  function Only(volumes: seq<Volume>, which: Volume -> bool): seq<Volume> {
    if volumes == [] then []
    else (if which(volumes[0]) then [volumes[0]] else []) + Only(volumes[1..], which)
  }

  lemma {:induction false} OnlyNone(volumes: seq<Volume>, which: Volume -> bool)
    requires forall v <- volumes :: !which(v)
    ensures Only(volumes, which) == []
  {
    if volumes != [] {
      OnlyNone(volumes[1..], which);
    }
  }

  /** When a VM can be built, and which error it is when it cannot. */
  lemma BuildsIff(o: VMOptions, isQuantity: Quantities)
    ensures BuildVMSpec(o, isQuantity).Built? <==>
              && o.name != "" && o.namespace != "" && o.image != "" && o.secretName != ""
              && o.cpuCores > 0 && isQuantity(o.memory)
    ensures var b := BuildVMSpec(o, isQuantity);
            b.BuildFailed? ==>
              match b.error
              case InvalidName => o.name == ""
              case InvalidNamespace => o.name != "" && o.namespace == ""
              case InvalidCPUCores(cores) => o.name != "" && o.namespace != "" && cores == o.cpuCores <= 0
              case InvalidImage => o.name != "" && o.namespace != "" && o.cpuCores > 0 && o.image == ""
              case InvalidSecretName =>
                o.name != "" && o.namespace != "" && o.cpuCores > 0 && o.image != "" && o.secretName == ""
              case InvalidMemory(memory) =>
                && o.name != "" && o.namespace != "" && o.cpuCores > 0 && o.image != "" && o.secretName != ""
                && memory == o.memory && !isQuantity(memory)
  {
  }

  /**
   What a built VM is: its labels and memory are those asked for, it boots from
   the one image, named "containerdisk", and carries the storage's disks, volumes
   and templates in order behind the two disks of its own.
   */
  lemma BuiltVMIsAsAsked(o: VMOptions, isQuantity: Quantities)
    requires WellWired(o.storage)
    ensures var b := BuildVMSpec(o, isQuantity);
            b.Built? ==>
              var spec := b.vm.spec;
              && spec.VMSpec? && b.vm.labels == o.labels && spec.memory == o.memory
              && Only(spec.volumes, HasImage) == [Volume("containerdisk", ContainerDisk(o.image))]
              && |spec.disks| == |o.storage.disks| + 2 && |spec.volumes| == |o.storage.volumes| + 2
              && (forall i | 0 <= i < |o.storage.disks| :: spec.disks[i + 2] == o.storage.disks[i])
              && (forall i | 0 <= i < |o.storage.volumes| :: spec.volumes[i + 2] == o.storage.volumes[i])
              && spec.disks[0] == Disk("containerdisk", "") && spec.disks[1] == Disk("cloudinitdisk", "")
              && spec.templates == o.storage.templates
  {
    OneImage(Volume(CONTAINER_DISK, ContainerDisk(o.image)), Volume(CLOUD_INIT_DISK, CloudInitSecret(o.secretName)),
             o.storage.volumes);
    hide WellWired, Only;
  }

  lemma OneImage(first: Volume, second: Volume, rest: seq<Volume>)
    requires HasImage(first) && !HasImage(second) && forall v <- rest :: v.source.DataVolumeRef?
    ensures Only([first, second] + rest, HasImage) == [first]
  {
    OnlyNone(rest, HasImage);
    var volumes := [first, second] + rest;
    assert volumes[1..][1..] == rest && volumes[1..][0] == second;
    assert Only(volumes[1..], HasImage) == [];
  }

  /**
   The core count is cut to 32 bits: a VM that is built has the cores asked for
   exactly when they fit, and may have none at all when they do not.
   */
  lemma CoresKeptIffTheyFit(o: VMOptions, isQuantity: Quantities)
    ensures var b := BuildVMSpec(o, isQuantity);
            b.Built? ==>
              && (b.vm.spec.cpuCores == o.cpuCores <==> o.cpuCores < 0x1_0000_0000)
              && (b.vm.spec.cpuCores == 0 <==> exists k: nat :: o.cpuCores == k * 0x1_0000_0000)
  {
    var b := BuildVMSpec(o, isQuantity);
    if b.Built? && b.vm.spec.cpuCores == 0 {
      assert o.cpuCores == (o.cpuCores / 0x1_0000_0000) * 0x1_0000_0000;
    }
  }

  /** The secrets a VM takes cloud-init data from. */
  function CloudInitSecrets(spec: Spec): set<string>
    requires spec.VMSpec?
  {
    set v <- spec.volumes | v.source.CloudInitSecret? :: v.source.secretName
  }

  lemma OneCloudInitSecret(o: VMOptions, isQuantity: Quantities)
    requires WellWired(o.storage)
    ensures var b := BuildVMSpec(o, isQuantity);
            b.Built? ==> CloudInitSecrets(b.vm.spec) == {o.secretName}
  {
    var b := BuildVMSpec(o, isQuantity);
    if b.Built? {
      var volumes := b.vm.spec.volumes;
      assert volumes[1].source == CloudInitSecret(o.secretName) && volumes[1] in volumes;
      forall k | 2 <= k < |volumes| ensures volumes[k].source.DataVolumeRef? {
        assert volumes[k] == o.storage.volumes[k - 2] && o.storage.volumes[k - 2] in o.storage.volumes;
      }
    }
  }

  /** Every VM built from well-wired storage has its disks, volumes and templates consistent. */
  lemma BuiltVMIsWired(o: VMOptions, isQuantity: Quantities)
    requires WellWired(o.storage)
    ensures var b := BuildVMSpec(o, isQuantity);
            b.Built? ==>
              && PairedAndDistinct(b.vm.spec.disks, b.vm.spec.volumes)
              && ReferencesResolve(b.vm.spec.volumes, b.vm.spec.templates)
  {
    assert CONTAINER_DISK[1] == 'o' && CLOUD_INIT_DISK[1] == 'l';
    var first, second := Disk(CONTAINER_DISK, ""), Disk(CLOUD_INIT_DISK, "");
    var image := Volume(CONTAINER_DISK, ContainerDisk(o.image));
    var secret := Volume(CLOUD_INIT_DISK, CloudInitSecret(o.secretName));
    TwoMoreDisks(first, second, o.storage.disks, image, secret, o.storage.volumes);
    TwoMoreVolumes(image, secret, o.storage.volumes, o.storage.templates);
    hide PairedAndDistinct, ReferencesResolve;
  }

  lemma TwoMoreDisks(first: Disk, second: Disk, disks: seq<Disk>, image: Volume, secret: Volume, volumes: seq<Volume>)
    requires PairedAndDistinct(disks, volumes) && first.name == image.name != secret.name == second.name
    requires forall d <- disks :: d.name != first.name && d.name != second.name
    ensures PairedAndDistinct([first, second] + disks, [image, secret] + volumes)
  {
    var all := [first, second] + disks;
    forall i, j | 0 <= i < j < |all| ensures all[i].name != all[j].name {
      if i < 2 && j >= 2 {
        assert disks[j - 2] in disks;
      }
    }
  }

  lemma TwoMoreVolumes(image: Volume, secret: Volume, volumes: seq<Volume>, templates: seq<DataVolumeTemplate>)
    requires ReferencesResolve(volumes, templates) && !image.source.DataVolumeRef? && !secret.source.DataVolumeRef?
    ensures ReferencesResolve([image, secret] + volumes, templates)
  {
  }

  /** From an accepted manifest to the VM object, for every VM name. */
  lemma CatalogVMIsWired(m: Manifest, isQuantity: Quantities, o: VMOptions)
    requires Acceptable(m, isQuantity)
    requires o.storage == ForVM(CatalogStorage(m.storage), o.name)
    ensures var b := BuildVMSpec(o, isQuantity);
            b.Built? ==>
              && PairedAndDistinct(b.vm.spec.disks, b.vm.spec.volumes)
              && ReferencesResolve(b.vm.spec.volumes, b.vm.spec.templates)
              && |b.vm.spec.disks| == |b.vm.spec.volumes| == 2 + |m.storage| && |b.vm.spec.templates| == |m.storage|
              && forall i | 0 <= i < |m.storage| ::
                   var s := m.storage[i];
                   && b.vm.spec.disks[i + 2] == Disk(s.name, s.serial)
                   && b.vm.spec.volumes[i + 2] == Volume(s.name, DataVolumeRef(s.name + "-" + o.name))
                   && b.vm.spec.templates[i] == DataVolumeTemplate(s.name + "-" + o.name, s.size)
  {
    var base := CatalogStorage(m.storage);
    AcceptedStorageIsWired(m, isQuantity);
    RenamingKeepsWiring(base, o.name);
    BuiltVMIsWired(o, isQuantity);
    BuiltVMIsAsAsked(o, isQuantity);
    hide WellWired, PairedAndDistinct, ReferencesResolve, BuildVMSpec, Acceptable;
    forall i | 0 <= i < |m.storage|
      ensures o.storage.volumes[i] == Volume(m.storage[i].name, DataVolumeRef(m.storage[i].name + "-" + o.name))
    {
      assert base.templates[i].name in TemplateNames(base.templates);
    }
  }
}
