/**
 The DataVolume names of a whole run: every VM's templates, renamed for that VM
 (planVMs in internal/orchestrator/orchestrator.go with NamespaceDataVolumes in
 internal/orchestrator/types.go).
 */
module VolumeNames {
  import opened Collections
  import opened Options
  import opened Naming
  import opened Planner
  import DiskWiring

  // ---------------------------------------------------------------------
  // Names and stems
  // ---------------------------------------------------------------------

  function NamesIn(storage: DiskWiring.Storage): seq<string> {
    seq(|storage.templates|, t requires 0 <= t < |storage.templates| => storage.templates[t].name)
  }

  /** The DataVolumes that the planned VMs bring along, in plan order. */
  function VolumeNames(plans: seq<VMPlan>): seq<string> {
    if plans == [] then [] else VolumeNames(plans[..|plans| - 1]) + NamesIn(plans[|plans| - 1].vm.storage)
  }

  /** A group of VMs with the storage of its workload. */
  datatype Owner = Owner(group: Group, storage: DiskWiring.Storage)

  function OwnersOf(groups: seq<Group>, storage: DiskWiring.Storage): seq<Owner> {
    seq(|groups|, g requires 0 <= g < |groups| => Owner(groups[g], storage))
  }

  /** The groups of all workloads that are planned, in plan order. */
  function AllOwners(input: Inputs, names: seq<string>): seq<Owner> {
    if names == [] then []
    else (if Disabled(input, names[0]) || names[0] !in input.registry || input.registry[names[0]].storage.None? then []
          else OwnersOf(Groups(input.registry[names[0]], names[0], Effective(input, names[0]).vmCount),
                        input.registry[names[0]].storage.value))
         + AllOwners(input, names[1..])
  }

  /** A template name and a prefix joined by a dash: what comes before the number of the VM. */
  function Stem(o: Owner, t: nat): string
    requires t < |o.storage.templates|
  {
    o.storage.templates[t].name + "-" + o.group.prefix
  }

  function StemsOf(o: Owner): seq<string> {
    seq(|o.storage.templates|, t requires 0 <= t < |o.storage.templates| => Stem(o, t))
  }

  function Stems(owners: seq<Owner>): seq<string> {
    if owners == [] then [] else Stems(owners[..|owners| - 1]) + StemsOf(owners[|owners| - 1])
  }

  /** Two DataVolume names are equal exactly when their numbers and their stems are. */
  lemma NamesMeetIff(a: string, p: string, m: nat, b: string, q: string, n: nat)
    ensures DiskWiring.Renamed(a, Numbered(p, m)) == DiskWiring.Renamed(b, Numbered(q, n))
            <==> m == n && a + "-" + p == b + "-" + q
  {
    assert DiskWiring.Renamed(a, Numbered(p, m)) == Numbered(a + "-" + p, m);
    assert DiskWiring.Renamed(b, Numbered(q, n)) == Numbered(b + "-" + q, n);
    NumberedInjective(a + "-" + p, b + "-" + q, m, n);
  }

  // ---------------------------------------------------------------------
  // One group
  // ---------------------------------------------------------------------

  /** The names for VM `i` of a group. */
  function Row(o: Owner, i: nat): seq<string> {
    seq(|o.storage.templates|, t requires 0 <= t < |o.storage.templates| => Numbered(Stem(o, t), i))
  }

  /** The names for the first `n` VMs of a group. */
  function Block(o: Owner, n: nat): seq<string> {
    if n == 0 then [] else Block(o, n - 1) + Row(o, n - 1)
  }

  predicate Apart(s: seq<string>, t: seq<string>) {
    forall x <- s :: x !in t
  }

  lemma DistinctOfSum(s: seq<string>, t: seq<string>)
    ensures Distinct(s + t) <==> Distinct(s) && Distinct(t) && Apart(s, t)
  {
    var u := s + t;
    if Distinct(u) {
      forall i, j | 0 <= i < |s| && 0 <= j < |t| ensures s[i] != t[j] {
        assert u[i] == s[i] && u[|s| + j] == t[j];
      }
      forall i, j | 0 <= i < j < |s| ensures s[i] != s[j] {
        assert u[i] == s[i] && u[j] == s[j];
      }
      forall i, j | 0 <= i < j < |t| ensures t[i] != t[j] {
        assert u[|s| + i] == t[i] && u[|s| + j] == t[j];
      }
    }
    if Distinct(s) && Distinct(t) && Apart(s, t) {
      forall i, j | 0 <= i < j < |u| ensures u[i] != u[j] {
        assert i < |s| <= j ==> s[i] in s && t[j - |s|] in t;
      }
    }
  }

  lemma RowDistinctIff(o: Owner, i: nat)
    ensures Distinct(Row(o, i)) <==> Distinct(StemsOf(o))
  {
    forall t, u | 0 <= t < u < |o.storage.templates|
      ensures Row(o, i)[t] == Row(o, i)[u] <==> StemsOf(o)[t] == StemsOf(o)[u]
    {
      NumberedInjective(Stem(o, t), Stem(o, u), i, i);
    }
  }

  lemma {:induction false} InBlock(o: Owner, n: nat, x: string)
    ensures x in Block(o, n) <==>
              exists i: nat, t: nat :: i < n && t < |o.storage.templates| && x == Numbered(Stem(o, t), i)
  {
    if n > 0 {
      InBlock(o, n - 1, x);
      assert x in Row(o, n - 1) <==>
        exists t: nat :: t < |o.storage.templates| && x == Numbered(Stem(o, t), n - 1) by {
        if t: nat :| t < |o.storage.templates| && x == Numbered(Stem(o, t), n - 1) {
          assert Row(o, n - 1)[t] == x;
        }
      }
    }
  }

  lemma {:induction false} BlockDistinctIff(o: Owner, n: nat)
    requires n >= 1
    ensures Distinct(Block(o, n)) <==> Distinct(StemsOf(o))
  {
    DistinctOfSum(Block(o, n - 1), Row(o, n - 1));
    RowDistinctIff(o, n - 1);
    if n > 1 {
      BlockDistinctIff(o, n - 1);
    }
    var block, row := Block(o, n - 1), Row(o, n - 1);
    forall x <- block ensures x !in row {
      InBlock(o, n - 1, x);
      var i: nat, t: nat :| i < n - 1 && t < |o.storage.templates| && x == Numbered(Stem(o, t), i);
      forall u: nat | u < |row| ensures row[u] != x {
        NumberedInjective(Stem(o, t), Stem(o, u), i, n - 1);
      }
    }
  }

  lemma BlocksApartIff(o: Owner, m: nat, p: Owner, n: nat)
    requires m >= 1 && n >= 1
    ensures Apart(Block(o, m), Block(p, n)) <==> Apart(StemsOf(o), StemsOf(p))
  {
    if Apart(StemsOf(o), StemsOf(p)) {
      forall x <- Block(o, m) ensures x !in Block(p, n) {
        InBlock(o, m, x);
        InBlock(p, n, x);
        var i: nat, t: nat :| i < m && t < |o.storage.templates| && x == Numbered(Stem(o, t), i);
        assert StemsOf(o)[t] in StemsOf(o);
        forall j: nat, u: nat | j < n && u < |p.storage.templates| ensures x != Numbered(Stem(p, u), j) {
          assert StemsOf(p)[u] in StemsOf(p);
          NumberedInjective(Stem(o, t), Stem(p, u), i, j);
        }
      }
    }
    if Apart(Block(o, m), Block(p, n)) {
      forall t: nat, u: nat | t < |o.storage.templates| && u < |p.storage.templates| ensures Stem(o, t) != Stem(p, u) {
        InBlock(o, m, Numbered(Stem(o, t), 0));
        InBlock(p, n, Numbered(Stem(p, u), 0));
      }
    }
  }

  // ---------------------------------------------------------------------
  // All groups
  // ---------------------------------------------------------------------

  function Blocks(owners: seq<Owner>): seq<string> {
    if owners == [] then []
    else Blocks(owners[..|owners| - 1]) + Block(owners[|owners| - 1], owners[|owners| - 1].group.count)
  }

  lemma {:induction false} AllBlocksApartIff(owners: seq<Owner>, last: Owner)
    requires last.group.count >= 1 && forall o <- owners :: o.group.count >= 1
    ensures Apart(Blocks(owners), Block(last, last.group.count)) <==> Apart(Stems(owners), StemsOf(last))
  {
    if owners != [] {
      var before, o := owners[..|owners| - 1], owners[|owners| - 1];
      AllBlocksApartIff(before, last);
      BlocksApartIff(o, o.group.count, last, last.group.count);
      hide Block, StemsOf;
      ApartOfSum(Blocks(before), Block(o, o.group.count), Block(last, last.group.count));
      ApartOfSum(Stems(before), StemsOf(o), StemsOf(last));
    }
  }

  lemma ApartOfSum(s: seq<string>, t: seq<string>, u: seq<string>)
    ensures Apart(s + t, u) <==> Apart(s, u) && Apart(t, u)
  {
    assert forall x :: x in s + t <==> x in s || x in t;
  }

  lemma {:induction false} BlocksDistinctIff(owners: seq<Owner>)
    requires forall o <- owners :: o.group.count >= 1
    ensures Distinct(Blocks(owners)) <==> Distinct(Stems(owners))
  {
    if owners != [] {
      var before, last := owners[..|owners| - 1], owners[|owners| - 1];
      BlocksDistinctIff(before);
      BlockDistinctIff(last, last.group.count);
      AllBlocksApartIff(before, last);
      hide Block, StemsOf, Distinct, Apart;
      DistinctOfSum(Blocks(before), Block(last, last.group.count));
      DistinctOfSum(Stems(before), StemsOf(last));
    }
  }

  // ---------------------------------------------------------------------
  // The plans
  // ---------------------------------------------------------------------

  lemma OneMorePlan(p: seq<VMPlan>, plan: VMPlan)
    ensures VolumeNames(p + [plan]) == VolumeNames(p) + NamesIn(plan.vm.storage)
  {
    assert (p + [plan])[..|p|] == p;
  }

  lemma {:induction false} VolumeNamesOfSum(p: seq<VMPlan>, q: seq<VMPlan>)
    ensures VolumeNames(p + q) == VolumeNames(p) + VolumeNames(q)
    decreases |q|
  {
    if q == [] {
      assert p + q == p && VolumeNames(q) == [];
    } else {
      var q', last := q[..|q| - 1], q[|q| - 1];
      hide VolumeNames, NamesIn;
      assert q == q' + [last];
      ConcatIsAssociative(p, q', [last]);
      OneMorePlan(p + q', last);
      OneMorePlan(q', last);
      VolumeNamesOfSum(p, q');
      ConcatIsAssociative(VolumeNames(p), VolumeNames(q'), NamesIn(last.vm.storage));
    }
  }

  lemma OneMoreOwner(owners: seq<Owner>, last: Owner)
    ensures Blocks(owners + [last]) == Blocks(owners) + Block(last, last.group.count)
  {
    assert (owners + [last])[..|owners|] == owners;
  }

  lemma {:induction false} BlocksOfSum(p: seq<Owner>, q: seq<Owner>)
    ensures Blocks(p + q) == Blocks(p) + Blocks(q)
    decreases |q|
  {
    if q == [] {
      assert p + q == p && Blocks(q) == [];
    } else {
      var q', last := q[..|q| - 1], q[|q| - 1];
      hide Blocks, Block;
      assert q == q' + [last];
      ConcatIsAssociative(p, q', [last]);
      OneMoreOwner(p + q', last);
      OneMoreOwner(q', last);
      BlocksOfSum(p, q');
      ConcatIsAssociative(Blocks(p), Blocks(q'), Block(last, last.group.count));
    }
  }

  lemma {:induction false} GroupHasBlock(input: Inputs, name: string, w: Workload, g: Group, n: nat)
    requires w.storage.Some? && RoleKey(g.role) in w.userdata
    ensures VolumeNames(PlansOfGroup(input, name, w, g, n)) == Block(Owner(g, w.storage.value), n)
  {
    if n > 0 {
      var plans := PlansOfGroup(input, name, w, g, n);
      assert plans[..n - 1] == PlansOfGroup(input, name, w, g, n - 1);
      GroupHasBlock(input, name, w, g, n - 1);
      PlanHasRow(input, name, w, g, n - 1);
    }
  }

  lemma PlanHasRow(input: Inputs, name: string, w: Workload, g: Group, i: nat)
    requires w.storage.Some? && RoleKey(g.role) in w.userdata
    ensures NamesIn(PlanOf(input, name, w, g, i).vm.storage) == Row(Owner(g, w.storage.value), i)
  {
    var o := Owner(g, w.storage.value);
    forall t: nat | t < |o.storage.templates|
      ensures DiskWiring.Renamed(o.storage.templates[t].name, Numbered(g.prefix, i)) == Numbered(Stem(o, t), i)
    {
    }
  }

  lemma {:induction false} GroupsHaveBlocks(input: Inputs, name: string, w: Workload, groups: seq<Group>)
    requires w.storage.Some?
    ensures var plans := PlansOfGroups(input, name, w, groups);
            plans.Some? ==> VolumeNames(plans.value) == Blocks(OwnersOf(groups, w.storage.value))
  {
    if groups != [] {
      var before, g := groups[..|groups| - 1], groups[|groups| - 1];
      GroupsHaveBlocks(input, name, w, before);
      var owners := OwnersOf(groups, w.storage.value);
      assert owners[..|owners| - 1] == OwnersOf(before, w.storage.value);
      if PlansOfGroups(input, name, w, groups).Some? {
        GroupHasBlock(input, name, w, g, g.count);
        VolumeNamesOfSum(PlansOfGroups(input, name, w, before).value, PlansOfGroup(input, name, w, g, g.count));
      }
    }
  }

  lemma {:induction false} PlansHaveBlocks(input: Inputs, names: seq<string>, p: Planned)
    ensures var r := PlanNames(input, names, p);
            r.Plans? ==> VolumeNames(r.planned.plans) == VolumeNames(p.plans) + Blocks(AllOwners(input, names))
  {
    if names != [] && PlanOne(input, names[0], p).Plans? {
      var next := PlanOne(input, names[0], p).planned;
      PlansHaveBlocks(input, names[1..], next);
      if Disabled(input, names[0]) {
        assert AllOwners(input, names) == AllOwners(input, names[1..]);
      } else {
        var w := input.registry[names[0]];
        var groups := Groups(w, names[0], Effective(input, names[0]).vmCount);
        GroupsHaveBlocks(input, names[0], w, groups);
        hide Groups, Effective, PlansOfGroups, Blocks, OwnersOf, VolumeNames;
        VolumeNamesOfSum(p.plans, PlansOfGroups(input, names[0], w, groups).value);
        BlocksOfSum(OwnersOf(groups, w.storage.value), AllOwners(input, names[1..]));
        ConcatIsAssociative(VolumeNames(p.plans), Blocks(OwnersOf(groups, w.storage.value)),
                            Blocks(AllOwners(input, names[1..])));
      }
    }
  }

  lemma {:induction false} OwnersHaveVMs(input: Inputs, names: seq<string>)
    ensures forall o <- AllOwners(input, names) :: o.group.count >= 1
  {
    if names != [] {
      OwnersHaveVMs(input, names[1..]);
    }
  }

  /**
   No two planned VMs, of whatever workloads, and no two disks of one VM share
   a DataVolume name: exactly when the stems of all groups and templates differ.
   */
  lemma VolumeNamesDistinct(input: Inputs, names: seq<string>)
    ensures var r := PlanNames(input, names, NOTHING_PLANNED);
            r.Plans? ==> (Distinct(VolumeNames(r.planned.plans)) <==> Distinct(Stems(AllOwners(input, names))))
  {
    PlansHaveBlocks(input, names, NOTHING_PLANNED);
    OwnersHaveVMs(input, names);
    BlocksDistinctIff(AllOwners(input, names));
    hide PlanNames, Distinct, Stems, Blocks;
    var r := PlanNames(input, names, NOTHING_PLANNED);
    assert r.Plans? ==> VolumeNames(r.planned.plans) == Blocks(AllOwners(input, names));
  }

  // ---------------------------------------------------------------------
  // Two accepted entries whose names meet
  // ---------------------------------------------------------------------

  function OneDisk(name: string): DiskWiring.Manifest {
    DiskWiring.Manifest([DiskWiring.StorageDefinition(name, "1Gi", "serial", "/mnt")], None)
  }

  /** The registry's entry of this name has one role and the storage of the manifest. */
  predicate HasEntry(input: Inputs, name: string, m: DiskWiring.Manifest) {
    && Plannable(input, name) && !Disabled(input, name)
    && !IsMulti(input.registry[name])
    && input.registry[name].storage == Some(DiskWiring.CatalogStorage(m.storage))
  }

  /**
   Across workloads the names can meet: two entries that pass validation, VMs
   with different names, and the same DataVolume.
   */
  lemma TemplatesMeetAcrossWorkloads(input: Inputs, isQuantity: DiskWiring.Quantities)
    requires isQuantity("1Gi")
    requires HasEntry(input, "a-virtwork-b", OneDisk("data")) && HasEntry(input, "b", OneDisk("data-virtwork-a"))
    ensures DiskWiring.Acceptable(OneDisk("data"), isQuantity)
    ensures DiskWiring.Acceptable(OneDisk("data-virtwork-a"), isQuantity)
    ensures var r := PlanNames(input, ["a-virtwork-b", "b"], NOTHING_PLANNED);
            r.Plans? && Distinct(r.planned.vmNames) && !Distinct(VolumeNames(r.planned.plans))
  {
    NotReserved();
    var names := ["a-virtwork-b", "b"];
    PlanningSucceedsIff(input, names, NOTHING_PLANNED);
    PlannedNamesDistinct(input, names);
    VolumeNamesDistinct(input, names);
    hide PlanNames, Plannable;
    MeetingGroups(input);
  }

  lemma NotReserved()
    ensures !DiskWiring.Reserved("data") && !DiskWiring.Reserved("data-virtwork-a")
  {
    assert |"data"| == 4 && |"data-virtwork-a"| == 15;
    assert |"datadisk"| == 8 && |"containerdisk"| == 13 && |"cloudinitdisk"| == 13;
  }

  function SingleGroup(input: Inputs, name: string): Group {
    Group("virtwork-" + name, None, Max(1, Effective(input, name).vmCount))
  }

  lemma TwoEntries(input: Inputs, name: string, m: DiskWiring.Manifest, name': string, m': DiskWiring.Manifest)
    requires HasEntry(input, name, m) && HasEntry(input, name', m')
    ensures AllGroups(input, [name, name']) == [SingleGroup(input, name), SingleGroup(input, name')]
    ensures AllOwners(input, [name, name'])
            == [Owner(SingleGroup(input, name), DiskWiring.CatalogStorage(m.storage)),
                Owner(SingleGroup(input, name'), DiskWiring.CatalogStorage(m'.storage))]
  {
    hide Effective, DiskWiring.CatalogStorage;
    var names := [name, name'];
    assert names[1..] == [name'] && names[1..][1..] == [];
    assert AllGroups(input, names[1..]) == [SingleGroup(input, name')] + [];
    var last := Owner(SingleGroup(input, name'), DiskWiring.CatalogStorage(m'.storage));
    assert OwnersOf([SingleGroup(input, name')], DiskWiring.CatalogStorage(m'.storage)) == [last];
    assert AllOwners(input, names[1..]) == [last] + [];
  }

  lemma MeetingGroups(input: Inputs)
    requires HasEntry(input, "a-virtwork-b", OneDisk("data")) && HasEntry(input, "b", OneDisk("data-virtwork-a"))
    ensures Distinct(Prefixes(AllGroups(input, ["a-virtwork-b", "b"])))
    ensures !Distinct(Stems(AllOwners(input, ["a-virtwork-b", "b"])))
  {
    TwoEntries(input, "a-virtwork-b", OneDisk("data"), "b", OneDisk("data-virtwork-a"));
    hide HasEntry, AllGroups, AllOwners, Effective, Stems, Prefixes, Distinct;
    PrefixesDiffer(SingleGroup(input, "a-virtwork-b"), SingleGroup(input, "b"));
    StemsMeet(Owner(SingleGroup(input, "a-virtwork-b"), DiskWiring.CatalogStorage(OneDisk("data").storage)),
              Owner(SingleGroup(input, "b"), DiskWiring.CatalogStorage(OneDisk("data-virtwork-a").storage)));
  }

  lemma PrefixesDiffer(g: Group, h: Group)
    requires g.prefix == "virtwork-" + "a-virtwork-b" && h.prefix == "virtwork-" + "b"
    ensures Distinct(Prefixes([g, h]))
  {
    assert |g.prefix| == 21 && |h.prefix| == 10;
  }

  lemma StemsMeet(o: Owner, p: Owner)
    requires |o.storage.templates| == |p.storage.templates| == 1
    requires o.storage.templates[0].name == "data" && o.group.prefix == "virtwork-" + "a-virtwork-b"
    requires p.storage.templates[0].name == "data-virtwork-a" && p.group.prefix == "virtwork-" + "b"
    ensures !Distinct(Stems([o, p]))
  {
    StemsOfTwo(o, p);
    hide Stems;
    assert "data" + "-" + ("virtwork-" + "a-virtwork-b") == "data-virtwork-a" + "-" + ("virtwork-" + "b");
    assert Stems([o, p])[0] == Stems([o, p])[1];
  }

  lemma StemsOfTwo(o: Owner, p: Owner)
    requires |o.storage.templates| == |p.storage.templates| == 1
    ensures Stems([o, p]) == [Stem(o, 0), Stem(p, 0)]
  {
    assert [o, p][..1] == [o] && [o][..0] == [];
    assert Stems([o]) == [] + [Stem(o, 0)];
    assert StemsOf(p) == [Stem(p, 0)];
  }
}
