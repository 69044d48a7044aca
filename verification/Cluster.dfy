/**
 The API server as the program's only shared state: a map from object keys to
 objects, calls that may be refused, and calls whose reply may be lost after
 they took effect. Controllers are not part of this model.
 */
module Cluster {
  import opened Options

  datatype Kind = Namespace | VirtualMachine | Service | Secret | DataVolume | PersistentVolumeClaim

  datatype Key = Key(kind: Kind, namespace: string, name: string)

  type Labels = map<string, string>

  datatype Disk = Disk(name: string, serial: string)

  datatype VolumeSource = ContainerDisk(image: string) | CloudInitSecret(secretName: string)
                        | DataVolumeRef(template: string)

  datatype Volume = Volume(name: string, source: VolumeSource)

  datatype DataVolumeTemplate = DataVolumeTemplate(name: string, size: string)

  datatype Port = Port(name: string, port: int, protocol: string)

  datatype Spec =
    | NamespaceSpec
    | VMSpec(cpuCores: int, memory: string, disks: seq<Disk>, volumes: seq<Volume>, templates: seq<DataVolumeTemplate>)
    | ServiceSpec(selector: Labels, ports: seq<Port>)
    | SecretSpec(userdata: string)
    | OtherSpec

  datatype Object = Object(labels: Labels, spec: Spec)

  type Store = map<Key, Object>

  // internal/constants/constants.go
  const LABEL_APP_NAME := "app.kubernetes.io/name"
  const LABEL_MANAGED_BY := "app.kubernetes.io/managed-by"
  const LABEL_COMPONENT := "app.kubernetes.io/component"
  const LABEL_RUN_ID := "virtwork/run-id"
  const LABEL_ROLE := "virtwork/role"
  const MANAGED_BY_VALUE := "virtwork"

  /** The label keys are pairwise distinct. */
  lemma LabelsDiffer()
    ensures LABEL_ROLE !in {LABEL_APP_NAME, LABEL_MANAGED_BY, LABEL_COMPONENT, LABEL_RUN_ID}
    ensures LABEL_APP_NAME !in {LABEL_MANAGED_BY, LABEL_COMPONENT, LABEL_RUN_ID}
    ensures LABEL_MANAGED_BY !in {LABEL_COMPONENT, LABEL_RUN_ID} && LABEL_COMPONENT != LABEL_RUN_ID
  {
    assert |LABEL_APP_NAME| == 22 && |LABEL_MANAGED_BY| == 28 && |LABEL_COMPONENT| == 27;
    assert |LABEL_RUN_ID| == 15 && |LABEL_ROLE| == 13;
  }

  // ---------------------------------------------------------------------
  // Calls
  // ---------------------------------------------------------------------

  /** Errors that do not depend on the store; `Refused` stands for all that are not worth a retry. */
  datatype ServerError = TooManyRequests | ServerTimeout | ServiceUnavailable | InternalError | Refused

  datatype ApiError = AlreadyExists | NotFound | Server(error: ServerError)

  datatype Reply = Ok | Failed(error: ApiError)

  /** What becomes of one call: served, turned away, or served with an error in place of the reply. */
  datatype Fault = Delivered | Rejected(error: ServerError) | Lost(error: ServerError)

  datatype Result = Result(store: Store, reply: Reply)

  function ServeCreate(s: Store, key: Key, o: Object, f: Fault): Result {
    match f
    case Delivered => if key in s then Result(s, Failed(AlreadyExists)) else Result(s[key := o], Ok)
    case Rejected(e) => Result(s, Failed(Server(e)))
    case Lost(e) => Result(if key in s then s else s[key := o], Failed(Server(e)))
  }

  /** With `dryRun` the server checks and replies but removes nothing. */
  function ServeDelete(s: Store, key: Key, dryRun: bool, f: Fault): Result {
    var after := if dryRun then s else s - {key};
    match f
    case Delivered => if key in s then Result(after, Ok) else Result(s, Failed(NotFound))
    case Rejected(e) => Result(s, Failed(Server(e)))
    case Lost(e) => Result(after, Failed(Server(e)))
  }

  function ServeRacedDelete(s: Store, key: Key, dryRun: bool, vanished: bool, f: Fault): Result {
    ServeDelete(if vanished then s - {key} else s, key, dryRun, f)
  }

  predicate MatchesLabels(labels: Labels, selector: Labels) {
    forall name <- selector :: name in labels && labels[name] == selector[name]
  }

  predicate Listed(s: Store, key: Key, kind: Kind, namespace: string, selector: Labels) {
    key in s && key.kind == kind && key.namespace == namespace && MatchesLabels(s[key].labels, selector)
  }

  datatype Item = Item(key: Key, labels: Labels)

  ghost function ItemKeys(items: seq<Item>): set<Key> {
    set i | 0 <= i < |items| :: items[i].key
  }

  /** A reply to a list call: every matching object once, in whatever order. */
  ghost predicate IsListing(items: seq<Item>, s: Store, kind: Kind, namespace: string, selector: Labels) {
    && (forall key :: key in ItemKeys(items) <==> Listed(s, key, kind, namespace, selector))
    && AreDistinctObjects(items, s)
  }

  predicate AreDistinctObjects(items: seq<Item>, s: Store) {
    && (forall i | 0 <= i < |items| :: items[i].key in s && items[i].labels == s[items[i].key].labels)
    && (forall i, j | 0 <= i < j < |items| :: items[i].key != items[j].key)
  }

  // ---------------------------------------------------------------------
  // The client
  // ---------------------------------------------------------------------

  class ApiServer {
    var objects: Store

    constructor (s: Store)
      ensures objects == s
    {
      objects := s;
    }

    method Create(key: Key, o: Object, fault: Fault) returns (reply: Reply)
      modifies this
      ensures Result(objects, reply) == ServeCreate(old(objects), key, o, fault)
    {
      var r := ServeCreate(objects, key, o, fault);
      objects, reply := r.store, r.reply;
    }

    /** Replaces an object that the caller has just read. */
    method Patch(key: Key, o: Object, fault: Fault) returns (reply: Reply)
      requires key in objects
      modifies this
      ensures objects == if fault.Rejected? then old(objects) else old(objects)[key := o]
      ensures reply == if fault.Delivered? then Ok else Failed(Server(fault.error))
    {
      if !fault.Rejected? {
        objects := objects[key := o];
      }
      return if fault.Delivered? then Ok else Failed(Server(fault.error));
    }

    /** When `vanished`, another client removes the object just before the call is served. */
    method Delete(key: Key, dryRun: bool, vanished: bool, fault: Fault) returns (reply: Reply)
      modifies this
      ensures Result(objects, reply) == ServeRacedDelete(old(objects), key, dryRun, vanished, fault)
    {
      var r := ServeRacedDelete(objects, key, dryRun, vanished, fault);
      objects, reply := r.store, r.reply;
    }

    method List(kind: Kind, namespace: string, selector: Labels, fails: bool) returns (items: Option<seq<Item>>)
      ensures items.None? <==> fails
      ensures items.Some? ==> IsListing(items.value, objects, kind, namespace, selector)
    {
      hide MatchesLabels, ItemKeys, AreDistinctObjects;
      if fails {
        return None;
      }
      var todo := set key <- objects | Listed(objects, key, kind, namespace, selector);
      ghost var all := todo;
      var found: seq<Item> := [];
      NoItems(objects);
      while todo != {}
        invariant todo <= all
        invariant ItemKeys(found) == all - todo && AreDistinctObjects(found, objects)
      {
        var key :| key in todo;
        AppendItem(found, Item(key, objects[key].labels));
        OneMoreObject(found, objects, key);
        found := found + [Item(key, objects[key].labels)];
        todo := todo - {key};
      }
      return Some(found);
    }
  }

  lemma NoItems(s: Store)
    ensures ItemKeys([]) == {} && AreDistinctObjects([], s)
  {
  }

  lemma OneMoreObject(items: seq<Item>, s: Store, key: Key)
    requires AreDistinctObjects(items, s) && key in s && key !in ItemKeys(items)
    ensures AreDistinctObjects(items + [Item(key, s[key].labels)], s)
  {
    forall i | 0 <= i < |items| ensures items[i].key != key {
      assert items[i].key in ItemKeys(items);
    }
  }

  lemma AppendItem(items: seq<Item>, item: Item)
    ensures ItemKeys(items + [item]) == ItemKeys(items) + {item.key}
  {
    forall key | key in ItemKeys(items) ensures key in ItemKeys(items + [item]) {
      var i :| 0 <= i < |items| && items[i].key == key;
      assert (items + [item])[i].key == key;
    }
    assert (items + [item])[|items|] == item;
  }
}
