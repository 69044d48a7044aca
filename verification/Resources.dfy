/** Idempotent creation: internal/resources/resources.go. */
module Resources {
  import opened Cluster

  // internal/constants/constants.go
  const MAX_SECRET_DATA_SIZE := 1048576

  /** An object that is there already is as good as one just created. */
  predicate Settled(reply: Reply) {
    reply.Ok? || reply.error.AlreadyExists?
  }

  method CreateService(api: ApiServer, key: Key, svc: Object, fault: Fault) returns (ok: bool)
    modifies api
    ensures var r := ServeCreate(old(api.objects), key, svc, fault);
            api.objects == r.store && ok == Settled(r.reply)
    ensures ok ==> key in api.objects && (key in old(api.objects) ==> api.objects == old(api.objects))
  {
    var reply := api.Create(key, svc, fault);
    if reply == Reply.Failed(AlreadyExists) {
      return true;
    }
    return reply.Ok?;
  }

  datatype SecretReply = SecretThere | TooLarge | SecretFailed(error: ApiError)

  /** `userdata` is measured in bytes before the server is asked. */
  method CreateCloudInitSecret(api: ApiServer, key: Key, userdata: string, labels: Labels, fault: Fault)
    returns (reply: SecretReply)
    modifies api
    ensures var r := ServeCreate(old(api.objects), key, Object(labels, SecretSpec(userdata)), fault);
            if |userdata| > 1048576 then reply == TooLarge && api.objects == old(api.objects)
            else api.objects == r.store && reply == if Settled(r.reply) then SecretThere else SecretFailed(r.reply.error)
    ensures reply.SecretThere? ==> key in api.objects && (key in old(api.objects) ==> api.objects == old(api.objects))
  {
    if |userdata| > MAX_SECRET_DATA_SIZE {
      return TooLarge;
    }
    var r := api.Create(key, Object(labels, SecretSpec(userdata)), fault);
    if r == Reply.Failed(AlreadyExists) {
      return SecretThere;
    }
    return if r.Ok? then SecretThere else SecretFailed(r.error);
  }

  // ---------------------------------------------------------------------
  // EnsureNamespace
  // ---------------------------------------------------------------------

  /** What the calls of one EnsureNamespace meet. */
  datatype Ensuring = Ensuring(create: Fault, getFails: bool, patch: Fault)

  function MergedLabels(o: Object, labels: Labels): Object {
    o.(labels := o.labels + labels)
  }

  datatype Ensured = Ensured(store: Store, ok: bool)

  /** Create, or else fetch the namespace and patch the labels in. */
  function EnsuredNamespace(s: Store, name: string, labels: Labels, e: Ensuring): Ensured {
    var key := Key(Namespace, "", name);
    var created := ServeCreate(s, key, Object(labels, NamespaceSpec), e.create);
    if created.reply.Ok? then Ensured(created.store, true)
    else if !created.reply.error.AlreadyExists? || e.getFails then Ensured(created.store, false)
    else
      var patched := s[key := MergedLabels(s[key], labels)];
      match e.patch
      case Delivered => Ensured(patched, true)
      case Rejected(_) => Ensured(s, false)
      case Lost(_) => Ensured(patched, false)
  }

  method EnsureNamespace(api: ApiServer, name: string, labels: Labels, e: Ensuring) returns (ok: bool)
    modifies api
    ensures Ensured(api.objects, ok) == EnsuredNamespace(old(api.objects), name, labels, e)
  {
    var key := Key(Namespace, "", name);
    var reply := api.Create(key, Object(labels, NamespaceSpec), e.create);
    if reply == Reply.Failed(AlreadyExists) {
      if e.getFails {
        return false;
      }
      var existing := api.objects[key];
      var merged := existing.labels;
      merged := merged + labels;
      var patched := api.Patch(key, existing.(labels := merged), e.patch);
      return patched.Ok?;
    }
    return reply.Ok?;
  }

  /**
   Whatever its calls meet, EnsureNamespace touches nothing but the namespace
   and takes no label away from it; on success the wanted labels are there, and
   doing it once more changes nothing. It succeeds exactly when the namespace
   could be created, or was there and could be read and patched.
   */
  lemma EnsuringIsGentle(s: Store, name: string, labels: Labels, e: Ensuring, again: Ensuring)
    ensures EnsuredNamespace(s, name, labels, e).ok
            <==> e.create.Delivered? && (Key(Namespace, "", name) in s ==> !e.getFails && e.patch.Delivered?)
    ensures var key := Key(Namespace, "", name);
            var r := EnsuredNamespace(s, name, labels, e);
            && r.store - {key} == s - {key}
            && (key in s ==> key in r.store && s[key].labels.Keys <= r.store[key].labels.Keys
                             && forall l <- s[key].labels | l !in labels :: r.store[key].labels[l] == s[key].labels[l])
            && (r.ok ==> key in r.store && MatchesLabels(r.store[key].labels, labels)
                         && EnsuredNamespace(r.store, name, labels, again).store == r.store)
  {
    var key := Key(Namespace, "", name);
    var r := EnsuredNamespace(s, name, labels, e);
    if r.ok {
      var there := r.store[key];
      assert there.labels + labels == there.labels;
      assert r.store[key := there] == r.store;
    }
  }
}
