/** One resource manager node: its private state, and one handler per
    inbound message. Every reply, forward and locate query the node would
    send is appended to `outbox` instead. */
module ResourceManager {
  import opened Protocol
  import opened LockTable
  import opened AccessQueue
  import opened Discovery

  /** The grant replies sent to the DISABLE requests waiting on a resource, in order. */
  function DisableGrants(waiters: seq<ManagementRequestMsg>): seq<Envelope>
    decreases |waiters|
  {
    if waiters == [] then []
    else
      var last := waiters[|waiters| - 1];
      DisableGrants(waiters[..|waiters| - 1]) + [Envelope(last.replyTo, ManagementRequestGranted(last.request))]
  }

  class ResourceManagerActor {
    /** The node's own actor reference. */
    const self: Actor
    /** Resources owned by this node and their status. */
    var localResource: map<ResourceName, ResourceStatus>
    /** Owner cache: resources found on a peer by discovery. */
    var knownRemote: map<ResourceName, Actor>
    /** The peer managers (never this node). */
    var allManagers: set<Actor>
    /** Lock table: the grants on each local resource, in grant order. */
    var resourceAccess: map<ResourceName, seq<UserAccess>>
    /** Blocked access requests for all resources, in arrival order. */
    var accessQueue: seq<AccessRequestMsg>
    /** DISABLE requests recorded against each resource. */
    var pendingDisable: map<ResourceName, seq<ManagementRequestMsg>>
    /** Open discovery sessions. */
    var discoveryMap: map<ResourceName, DiscoverySession>
    /** Everything the node has sent, in sending order. */
    var outbox: seq<Envelope>

    function Grants(name: ResourceName): seq<UserAccess>
      reads this`resourceAccess
    {
      GrantsOf(resourceAccess, name)
    }

    function PendingOf(name: ResourceName): seq<ManagementRequestMsg>
      reads this`pendingDisable
    {
      if name in pendingDisable then pendingDisable[name] else []
    }

    /** A queued request names a local, enabled resource with no disable
        pending and with a grant list, and is of a blocking kind. */
    ghost predicate Waitable(m: AccessRequestMsg)
      reads this`localResource, this`pendingDisable, this`resourceAccess
    {
      var n := m.request.resourceName;
      n in localResource && localResource[n] == Enabled && n !in pendingDisable && n in resourceAccess &&
      m.request.requestType.IsBlocking()
    }

    /** Mutual exclusion holds on every resource. */
    ghost predicate LocksExclusive()
      reads this`resourceAccess
    {
      forall n :: n in resourceAccess ==> Exclusive(resourceAccess[n])
    }

    /** No grant is held on a disabled resource. */
    ghost predicate DisabledIdle()
      reads this`localResource, this`resourceAccess
    {
      forall n :: n in localResource && localResource[n] == Disabled ==> Grants(n) == []
    }

    ghost predicate QueueWaitable()
      reads this`accessQueue, this`localResource, this`pendingDisable, this`resourceAccess
    {
      forall m :: m in accessQueue ==> Waitable(m)
    }

    ghost predicate SessionsWellFormed()
      reads this`discoveryMap
    {
      forall n :: n in discoveryMap ==> SessionFor(discoveryMap[n], n)
    }

    /** The node invariant: mutual exclusion on every resource, no grant on
        a disabled resource, only waitable requests in the queue, and
        well-formed discovery sessions. */
    ghost predicate Valid()
      reads this
    {
      self !in allManagers && LocksExclusive() && DisabledIdle() && QueueWaitable() && SessionsWellFormed()
    }

    /** Each resource name is local, cached as remote, or being discovered, never two of these. */
    ghost predicate Partitioned()
      reads this
    {
      localResource.Keys !! knownRemote.Keys &&
      localResource.Keys !! discoveryMap.Keys &&
      knownRemote.Keys !! discoveryMap.Keys
    }

    twostate predicate LocalUnchanged()
      reads this
    {
      localResource == old(localResource) && resourceAccess == old(resourceAccess) &&
      accessQueue == old(accessQueue) && pendingDisable == old(pendingDisable)
    }

    twostate predicate RoutingUnchanged()
      reads this
    {
      knownRemote == old(knownRemote) && discoveryMap == old(discoveryMap) && allManagers == old(allManagers)
    }

    /** The effect of a message for a resource that is not local: forwarded
        verbatim to the cached owner, or appended to the open session, or a
        new session counting one reply per peer after a locate query to each. */
    twostate predicate Routed(op: Operation)
      reads this
    {
      var n := op.ResourceName();
      LocalUnchanged() && allManagers == old(allManagers) && knownRemote == old(knownRemote) &&
      if n in old(knownRemote) then
        outbox == old(outbox) + [Envelope(old(knownRemote)[n], Request(op))] && discoveryMap == old(discoveryMap)
      else if n in old(discoveryMap) then
        outbox == old(outbox) &&
        discoveryMap == old(discoveryMap)[n := old(discoveryMap)[n].(buffered := old(discoveryMap)[n].buffered + [op])]
      else
        |old(outbox)| <= |outbox| && outbox[..|old(outbox)|] == old(outbox) &&
        IsBroadcast(outbox[|old(outbox)|..], allManagers, n, self) &&
        discoveryMap == old(discoveryMap)[n := DiscoverySession(|allManagers|, [op])]
    }

    /** The effect of an access request on a local resource: denied while the
        resource is disabled or a disable is pending; otherwise granted when
        compatible, queued when blocking, denied as busy when not. */
    twostate predicate Arbitrated(msg: AccessRequestMsg)
      requires msg.request.resourceName in old(localResource)
      reads this
    {
      var n := msg.request.resourceName;
      var rt := msg.request.requestType;
      localResource == old(localResource) && pendingDisable == old(pendingDisable) && RoutingUnchanged() &&
      if old(localResource)[n] == Disabled || n in old(pendingDisable) then
        outbox == old(outbox) + [Envelope(msg.replyTo, AccessRequestDenied(msg.request, ResourceDisabled))] &&
        resourceAccess == old(resourceAccess) && accessQueue == old(accessQueue)
      else if Compatible(old(Grants(n)), msg.replyTo, rt) then
        resourceAccess == Admit(old(resourceAccess), msg) && accessQueue == old(accessQueue) &&
        outbox == old(outbox) + [Envelope(msg.replyTo, AccessRequestGranted(msg.request))]
      else if rt.IsBlocking() then
        accessQueue == old(accessQueue) + [msg] && resourceAccess == old(resourceAccess) && outbox == old(outbox)
      else
        outbox == old(outbox) + [Envelope(msg.replyTo, AccessRequestDenied(msg.request, ResourceBusy))] &&
        resourceAccess == old(resourceAccess) && accessQueue == old(accessQueue)
    }

    /** The effect of a release on a local resource: the first grant with the
        releaser and mode is removed (none: ignored); once the list is empty,
        an enabled resource with recorded DISABLE requests becomes disabled
        and each of them is granted. */
    twostate predicate ReleasedLocally(msg: AccessReleaseMsg, released: bool)
      requires msg.release.resourceName in old(localResource)
      reads this
    {
      var n := msg.release.resourceName;
      var g := UserAccess(msg.sender, msg.release.accessType);
      var after := RemoveFirst(old(Grants(n)), g);
      var drains := after == [] && n in old(pendingDisable) && old(localResource)[n] == Enabled;
      (released <==> g in old(Grants(n))) &&
      resourceAccess == (if released then old(resourceAccess)[n := after] else old(resourceAccess)) &&
      localResource == (if drains then old(localResource)[n := Disabled] else old(localResource)) &&
      outbox == old(outbox) + (if drains then DisableGrants(old(pendingDisable)[n]) else []) &&
      accessQueue == old(accessQueue) && pendingDisable == old(pendingDisable) && RoutingUnchanged()
    }

    /** The effect of a management request on a local resource. */
    twostate predicate ManagedLocally(msg: ManagementRequestMsg)
      requires msg.request.resourceName in old(localResource)
      reads this
    {
      var n := msg.request.resourceName;
      var granted := Envelope(msg.replyTo, ManagementRequestGranted(msg.request));
      RoutingUnchanged() &&
      if msg.request.requestType == Enable then
        resourceAccess == old(resourceAccess) &&
        localResource == old(localResource)[n := Enabled] &&
        pendingDisable == (if old(localResource)[n] == Disabled then old(pendingDisable) - {n} else old(pendingDisable)) &&
        accessQueue == old(accessQueue) && outbox == old(outbox) + [granted]
      else if old(localResource)[n] == Disabled then
        LocalUnchanged() && outbox == old(outbox) + [granted]
      else
        resourceAccess == old(resourceAccess)[n := old(Grants(n))] &&
        if HeldBy(old(Grants(n)), msg.replyTo) then
          localResource == old(localResource) && accessQueue == old(accessQueue) && pendingDisable == old(pendingDisable) &&
          outbox == old(outbox) + [Envelope(msg.replyTo, ManagementRequestDenied(msg.request, AccessHeldByUser))]
        else
          accessQueue == Without(old(accessQueue), n) &&
          pendingDisable == old(pendingDisable)[n := old(PendingOf(n)) + [msg]] &&
          if old(Grants(n)) == [] then
            localResource == old(localResource)[n := Disabled] &&
            outbox == old(outbox) + DisabledDenials(Naming(old(accessQueue), n)) + [granted]
          else
            localResource == old(localResource) &&
            outbox == old(outbox) + DisabledDenials(Naming(old(accessQueue), n))
    }

    constructor (self: Actor)
      ensures this.self == self && Valid() && Partitioned()
      ensures localResource == map[] && knownRemote == map[] && allManagers == {}
      ensures resourceAccess == map[] && accessQueue == [] && pendingDisable == map[]
      ensures discoveryMap == map[] && outbox == []
    {
      this.self := self;
      localResource, knownRemote, allManagers := map[], map[], {};
      resourceAccess, accessQueue, pendingDisable := map[], [], map[];
      discoveryMap, outbox := map[], [];
    }

    /** Configuration: every listed manager except this node becomes a peer. */
    method AddRemoteManagers(sender: Actor, managers: seq<Actor>)
      requires Valid()
      modifies this
      ensures Valid()
      ensures allManagers == old(allManagers) + (set a | a in managers && a != self)
      ensures outbox == old(outbox) + [Envelope(sender, AddRemoteManagersResponse(managers))]
      ensures LocalUnchanged() && knownRemote == old(knownRemote) && discoveryMap == old(discoveryMap)
      ensures old(Partitioned()) ==> Partitioned()
    {
      var peers := allManagers;
      var i := 0;
      while i < |managers|
        invariant 0 <= i <= |managers|
        invariant peers == old(allManagers) + (set a | a in managers[..i] && a != self)
      {
        var actor := managers[i];
        assert managers[..i + 1] == managers[..i] + [actor];
        if actor != self {
          peers := peers + {actor};
        }
        i := i + 1;
      }
      assert managers[..i] == managers;
      allManagers := peers;
      outbox := outbox + [Envelope(sender, AddRemoteManagersResponse(managers))];
    }

    /** Configuration: every listed resource becomes local and ENABLED. */
    method AddInitialLocalResources(sender: Actor, resources: seq<ResourceName>)
      requires Valid()
      modifies this
      ensures Valid()
      ensures localResource == old(localResource) + map n | n in resources :: Enabled
      ensures outbox == old(outbox) + [Envelope(sender, AddInitialLocalResourcesResponse(resources))]
      ensures resourceAccess == old(resourceAccess) && accessQueue == old(accessQueue)
      ensures pendingDisable == old(pendingDisable) && RoutingUnchanged()
      ensures old(Partitioned()) && (forall n :: n in resources ==> n !in old(knownRemote) && n !in old(discoveryMap)) ==>
        Partitioned()
    {
      var local := localResource;
      var i := 0;
      while i < |resources|
        invariant 0 <= i <= |resources|
        invariant local == old(localResource) + map n | n in resources[..i] :: Enabled
      {
        var name := resources[i];
        assert resources[..i + 1] == resources[..i] + [name];
        local := local[name := Enabled];
        i := i + 1;
      }
      assert resources[..i] == resources;
      localResource := local;
      outbox := outbox + [Envelope(sender, AddInitialLocalResourcesResponse(resources))];
    }

    /** Configuration: the local users are acknowledged; the node keeps no use for them. */
    method AddLocalUsers(sender: Actor, users: seq<Actor>)
      requires Valid()
      modifies this
      ensures Valid()
      ensures outbox == old(outbox) + [Envelope(sender, AddLocalUsersResponse(users))]
      ensures LocalUnchanged() && RoutingUnchanged()
    {
      outbox := outbox + [Envelope(sender, AddLocalUsersResponse(users))];
    }

    /** A message for a resource that is not local goes to its cached owner or into discovery. */
    method RouteElsewhere(op: Operation)
      requires Valid() && op.ResourceName() !in localResource
      modifies this
      ensures Valid() && Routed(op)
      ensures old(Partitioned()) ==> Partitioned()
    {
      var name := op.ResourceName();
      if name in knownRemote {
        outbox := outbox + [Envelope(knownRemote[name], Request(op))];
      } else if name in discoveryMap {
        var session := discoveryMap[name];
        discoveryMap := discoveryMap[name := session.(buffered := session.buffered + [op])];
      } else {
        var queries, count := Broadcast(allManagers, name, self);
        outbox := outbox + queries;
        discoveryMap := discoveryMap[name := DiscoverySession(count, [op])];
      }
    }

    /** Arbitration of an access request for a local resource. */
    method ArbitrateLocal(msg: AccessRequestMsg)
      requires Valid() && msg.request.resourceName in localResource
      modifies this
      ensures Valid() && Arbitrated(msg)
      ensures Partitioned() == old(Partitioned())
    {
      var access := msg.request;
      var sender := msg.replyTo;
      var resourceName := access.resourceName;
      var typeRequest := access.requestType;
      if localResource[resourceName] == Disabled || resourceName in pendingDisable {
        outbox := outbox + [Envelope(sender, AccessRequestDenied(access, ResourceDisabled))];
        return;
      }
      var list := Grants(resourceName);
      var canAccess := CanAccess(list, sender, typeRequest);
      if canAccess {
        AdmitKeepsTableExclusive(resourceAccess, msg);
        resourceAccess := resourceAccess[resourceName := list + [UserAccess(sender, typeRequest.Mode())]];
        outbox := outbox + [Envelope(sender, AccessRequestGranted(access))];
      } else if typeRequest.IsBlocking() {
        accessQueue := accessQueue + [msg];
      } else {
        outbox := outbox + [Envelope(sender, AccessRequestDenied(access, ResourceBusy))];
      }
    }

    /** An access request from a client or a peer. */
    method ReceiveAccessRequest(msg: AccessRequestMsg)
      requires Valid()
      modifies this
      ensures Valid()
      ensures msg.request.resourceName !in old(localResource) ==> Routed(AccessOp(msg))
      ensures msg.request.resourceName in old(localResource) ==> Arbitrated(msg)
      ensures old(Partitioned()) ==> Partitioned()
    {
      if msg.request.resourceName !in localResource {
        RouteElsewhere(AccessOp(msg));
      } else {
        ArbitrateLocal(msg);
      }
    }

    /** The release step of an access release; `released` tells a release
        that removed a grant from one that was ignored. */
    method ReleaseAccess(msg: AccessReleaseMsg) returns (released: bool)
      requires Valid()
      modifies this
      ensures Valid()
      ensures msg.release.resourceName !in old(localResource) ==> Routed(ReleaseOp(msg)) && !released
      ensures msg.release.resourceName in old(localResource) ==> ReleasedLocally(msg, released)
      ensures old(Partitioned()) ==> Partitioned()
    {
      var release := msg.release;
      var sender := msg.sender;
      var resource := release.resourceName;
      if resource !in localResource {
        RouteElsewhere(ReleaseOp(msg));
        return false;
      }
      // A resource that never had a grant list reads as an empty one.
      var list := Grants(resource);
      var g := UserAccess(sender, release.accessType);
      var hasAccess, index := FindGrant(list, sender, release.accessType);
      if hasAccess {
        RemoveFirstAt(list, g, index);
        RemoveKeepsExclusive(list, index);
        list := list[..index] + list[index + 1..];
        resourceAccess := resourceAccess[resource := list];
      } else {
        RemoveFirstAbsent(list, g);
      }
      released := hasAccess;
      if list == [] && resource in pendingDisable && localResource[resource] == Enabled {
        CompleteDisable(resource);
      }
    }

    /** The end of a drain: the last grant on a resource with recorded
        DISABLE requests is gone, so it becomes DISABLED and every recorded
        request is granted, in order. */
    method CompleteDisable(resource: ResourceName)
      requires Valid() && resource in localResource && localResource[resource] == Enabled
      requires resource in pendingDisable && Grants(resource) == []
      modifies this
      ensures Valid()
      ensures localResource == old(localResource)[resource := Disabled]
      ensures outbox == old(outbox) + DisableGrants(old(pendingDisable)[resource])
      ensures resourceAccess == old(resourceAccess) && accessQueue == old(accessQueue)
      ensures pendingDisable == old(pendingDisable) && RoutingUnchanged()
    {
      localResource := localResource[resource := Disabled];
      var waiters := pendingDisable[resource];
      var grants := [];
      var i := 0;
      while i < |waiters|
        invariant 0 <= i <= |waiters|
        invariant grants == DisableGrants(waiters[..i])
      {
        var respondTo := waiters[i];
        assert waiters[..i + 1][..i] == waiters[..i];
        grants := grants + [Envelope(respondTo.replyTo, ManagementRequestGranted(respondTo.request))];
        i := i + 1;
      }
      assert waiters[..i] == waiters;
      outbox := outbox + grants;
    }

    /** One step of re-evaluation: the head of the queue is compatible with
        the current grants, so it is granted and leaves the queue. */
    method GrantHead()
      requires Valid() && accessQueue != [] && HeadCompatible(resourceAccess, accessQueue[0])
      modifies this
      ensures Valid()
      ensures accessQueue == old(accessQueue)[1..] && resourceAccess == Admit(old(resourceAccess), old(accessQueue)[0])
      ensures outbox == old(outbox) + [Envelope(old(accessQueue)[0].replyTo, AccessRequestGranted(old(accessQueue)[0].request))]
      ensures localResource == old(localResource) && pendingDisable == old(pendingDisable) && RoutingUnchanged()
    {
      var pending := accessQueue[0];
      assert Waitable(pending);
      ArbitrateLocal(pending);
      assert forall m :: m in accessQueue[1..] ==> m in accessQueue;
      accessQueue := accessQueue[1..];
    }

    /** The compatibility scan of re-evaluation, run for the request at the
        head of the queue against the current grants on its resource. */
    method HeadGrantable() returns (canAccess: bool)
      ensures canAccess <==> accessQueue != [] && HeadCompatible(resourceAccess, accessQueue[0])
    {
      if accessQueue == [] {
        return false;
      }
      var pending := accessQueue[0];
      canAccess := CanAccess(Grants(pending.request.resourceName), pending.replyTo, pending.request.requestType);
    }

    /** Progress of a re-evaluation pass that started from queue `q0`, table
        `t0` and outbox `o0`: the first `i` requests have been granted and
        replied to, and the rest of the pass, run from the current state,
        completes the pass over the starting state. */
    ghost predicate PassProgress(q0: seq<AccessRequestMsg>, t0: map<ResourceName, seq<UserAccess>>, o0: seq<Envelope>, i: nat)
      reads this`accessQueue, this`resourceAccess, this`outbox
    {
      i <= |q0| && accessQueue == q0[i..] &&
      Reevaluate(q0, t0) == Pass(i + Reevaluate(accessQueue, resourceAccess).admitted, Reevaluate(accessQueue, resourceAccess).table) &&
      outbox == o0 + GrantedReplies(q0[..i])
    }

    /** One turn of re-evaluation: the compatible head is granted, and the
        pass has advanced by one request. */
    method GrantNext(ghost q0: seq<AccessRequestMsg>, ghost t0: map<ResourceName, seq<UserAccess>>, ghost o0: seq<Envelope>, ghost i: nat)
      requires Valid() && PassProgress(q0, t0, o0, i)
      requires accessQueue != [] && HeadCompatible(resourceAccess, accessQueue[0])
      modifies this
      ensures Valid() && PassProgress(q0, t0, o0, i + 1)
      ensures localResource == old(localResource) && pendingDisable == old(pendingDisable) && RoutingUnchanged()
    {
      ReevaluateStep(q0, t0, i, accessQueue, resourceAccess);
      GrantedRepliesStep(o0, q0, i);
      ghost var sent := outbox;
      GrantHead();
      assert outbox == sent + [Envelope(q0[i].replyTo, AccessRequestGranted(q0[i].request))];
    }

    /** Re-evaluation of the queue after a release: grant from the front
        while the head is compatible, stop at the first that is not. */
    method GrantRequestOnRelease()
      requires Valid()
      modifies this
      ensures Valid()
      ensures var r := Reevaluate(old(accessQueue), old(resourceAccess));
        accessQueue == old(accessQueue)[r.admitted..] && resourceAccess == r.table &&
        outbox == old(outbox) + GrantedReplies(old(accessQueue)[..r.admitted])
      ensures localResource == old(localResource) && pendingDisable == old(pendingDisable) && RoutingUnchanged()
      ensures Partitioned() == old(Partitioned())
    {
      ghost var i := 0;
      assert old(accessQueue)[..0] == [];
      var canAccess := HeadGrantable();
      while canAccess
        invariant Valid()
        invariant canAccess <==> accessQueue != [] && HeadCompatible(resourceAccess, accessQueue[0])
        invariant PassProgress(old(accessQueue), old(resourceAccess), old(outbox), i)
        invariant localResource == old(localResource) && pendingDisable == old(pendingDisable) && RoutingUnchanged()
        decreases |accessQueue|
      {
        GrantNext(old(accessQueue), old(resourceAccess), old(outbox), i);
        i := i + 1;
        canAccess := HeadGrantable();
      }
      if accessQueue != [] {
        HeadOfLineBlocking(accessQueue, resourceAccess);
      }
    }

    /** The effect of a whole release message: the release step (applied or
        ignored locally, or routed), then one re-evaluation pass over the queue
        against the lock table the release step left, whose grant replies
        follow the release step's own messages. */
    twostate predicate ReleaseHandled(msg: AccessReleaseMsg, released: bool)
      reads this
    {
      var n := msg.release.resourceName;
      var g := UserAccess(msg.sender, msg.release.accessType);
      var mid := if released then old(resourceAccess)[n := RemoveFirst(old(Grants(n)), g)] else old(resourceAccess);
      var r := Reevaluate(old(accessQueue), mid);
      var grants := GrantedReplies(old(accessQueue)[..r.admitted]);
      (released <==> n in old(localResource) && g in old(Grants(n))) &&
      accessQueue == old(accessQueue)[r.admitted..] && resourceAccess == r.table &&
      pendingDisable == old(pendingDisable) && allManagers == old(allManagers) &&
      |old(outbox)| + |grants| <= |outbox| && outbox[..|old(outbox)|] == old(outbox) &&
      outbox[|outbox| - |grants|..] == grants &&
      var sent := outbox[|old(outbox)|..|outbox| - |grants|];
      if n in old(localResource) then
        var drains := RemoveFirst(old(Grants(n)), g) == [] && n in old(pendingDisable) && old(localResource)[n] == Enabled;
        localResource == (if drains then old(localResource)[n := Disabled] else old(localResource)) &&
        sent == (if drains then DisableGrants(old(pendingDisable)[n]) else []) && RoutingUnchanged()
      else
        localResource == old(localResource) && knownRemote == old(knownRemote) &&
        if n in old(knownRemote) then
          sent == [Envelope(old(knownRemote)[n], Request(ReleaseOp(msg)))] && discoveryMap == old(discoveryMap)
        else if n in old(discoveryMap) then
          sent == [] &&
          discoveryMap == old(discoveryMap)[n := old(discoveryMap)[n].(buffered := old(discoveryMap)[n].buffered + [ReleaseOp(msg)])]
        else
          IsBroadcast(sent, allManagers, n, self) &&
          discoveryMap == old(discoveryMap)[n := DiscoverySession(|allManagers|, [ReleaseOp(msg)])]
    }

    /** An access release: the release step, then queue re-evaluation,
        which runs whether the release was applied, ignored, forwarded or buffered. */
    method ReceiveAccessRelease(msg: AccessReleaseMsg) returns (released: bool)
      requires Valid()
      modifies this
      ensures Valid() && ReleaseHandled(msg, released)
      ensures old(Partitioned()) ==> Partitioned()
    {
      released := ReleaseAccess(msg);
      ghost var mid, table := outbox, resourceAccess;
      GrantRequestOnRelease();
      ghost var r := Reevaluate(old(accessQueue), table);
      assert outbox[..|old(outbox)|] == old(outbox) by {
        assert mid[..|old(outbox)|] == old(outbox);
      }
      assert outbox[|old(outbox)|..|outbox| - |GrantedReplies(old(accessQueue)[..r.admitted])|] == mid[|old(outbox)|..];
    }

    /** The release message as the source handles it: for a local resource
        with no lock-table entry the grant list is null, so the release step
        throws before it changes any field and the message ends there, without
        the re-evaluation pass; every other release is handled as in
        `ReceiveAccessRelease`. The model stops at the throw: what the actor
        runtime then does with the node is not modelled. */
    method ReceiveAccessReleaseAsWritten(msg: AccessReleaseMsg) returns (aborted: bool, released: bool)
      requires Valid()
      modifies this
      ensures Valid()
      ensures aborted <==> msg.release.resourceName in old(localResource) && msg.release.resourceName !in old(resourceAccess)
      ensures aborted ==> !released && LocalUnchanged() && RoutingUnchanged() && outbox == old(outbox)
      ensures !aborted ==> ReleaseHandled(msg, released)
    {
      var resource := msg.release.resourceName;
      if resource in localResource && resource !in resourceAccess {
        return true, false;
      }
      aborted := false;
      released := ReceiveAccessRelease(msg);
    }

    /** A DISABLE of a local, ENABLED resource that the requester holds no
        grant on: the queued requests for it are denied and dropped, the
        request is recorded, and it is granted at once when no grant is held. */
    method DisableLocal(msg: ManagementRequestMsg)
      requires Valid() && msg.request.resourceName in localResource
      requires localResource[msg.request.resourceName] == Enabled
      requires !HeldBy(Grants(msg.request.resourceName), msg.replyTo)
      modifies this
      ensures Valid()
      ensures var n := msg.request.resourceName;
        accessQueue == Without(old(accessQueue), n) && resourceAccess == old(resourceAccess) &&
        pendingDisable == old(pendingDisable)[n := old(PendingOf(n)) + [msg]] && RoutingUnchanged() &&
        if old(Grants(n)) == [] then
          localResource == old(localResource)[n := Disabled] &&
          outbox == old(outbox) + DisabledDenials(Naming(old(accessQueue), n)) + [Envelope(msg.replyTo, ManagementRequestGranted(msg.request))]
        else
          localResource == old(localResource) &&
          outbox == old(outbox) + DisabledDenials(Naming(old(accessQueue), n))
    {
      var resource := msg.request.resourceName;
      var list := Grants(resource);
      DenyQueued(resource);
      if list == [] {
        localResource := localResource[resource := Disabled];
        pendingDisable := pendingDisable[resource := PendingOf(resource) + [msg]];
        outbox := outbox + [Envelope(msg.replyTo, ManagementRequestGranted(msg.request))];
      } else {
        pendingDisable := pendingDisable[resource := PendingOf(resource) + [msg]];
      }
    }

    /** The queue purge of a DISABLE: every queued request for `resource`
        leaves the queue and is denied as disabled; the rest keep their order. */
    method DenyQueued(resource: ResourceName)
      requires Valid()
      modifies this
      ensures Valid()
      ensures accessQueue == Without(old(accessQueue), resource)
      ensures forall m :: m in accessQueue ==> m.request.resourceName != resource
      ensures outbox == old(outbox) + DisabledDenials(Naming(old(accessQueue), resource))
      ensures localResource == old(localResource) && resourceAccess == old(resourceAccess)
      ensures pendingDisable == old(pendingDisable) && RoutingUnchanged()
    {
      var kept, purged := Purge(accessQueue, resource);
      assert forall m :: m in kept ==> m in accessQueue && m.request.resourceName != resource;
      accessQueue := kept;
      outbox := outbox + DisabledDenials(purged);
    }

    /** A management request from a client or a peer. */
    method ReceiveManagementRequest(msg: ManagementRequestMsg)
      requires Valid()
      modifies this
      ensures Valid()
      ensures msg.request.resourceName !in old(localResource) ==> Routed(ManageOp(msg))
      ensures msg.request.resourceName in old(localResource) ==> ManagedLocally(msg)
      ensures old(Partitioned()) ==> Partitioned()
    {
      var management := msg.request;
      var replyTo := msg.replyTo;
      var resource := management.resourceName;
      if resource !in localResource {
        RouteElsewhere(ManageOp(msg));
        return;
      }
      var granted := Envelope(replyTo, ManagementRequestGranted(management));
      if management.requestType == Disable {
        if localResource[resource] == Enabled {
          // A DISABLE of an enabled resource gives it a grant list, empty if it had none.
          var list := Grants(resource);
          resourceAccess := resourceAccess[resource := list];
          var held := HoldsAccess(list, replyTo);
          if held {
            outbox := outbox + [Envelope(replyTo, ManagementRequestDenied(management, AccessHeldByUser))];
          } else {
            DisableLocal(msg);
          }
        } else {
          outbox := outbox + [granted];
        }
      } else {
        if localResource[resource] == Disabled {
          localResource := localResource[resource := Enabled];
          pendingDisable := pendingDisable - {resource};
        }
        outbox := outbox + [granted];
      }
    }

    /** A locate query from a peer, answered by local ownership. */
    method ReceiveWhoHasRequest(resource: ResourceName, asker: Actor)
      requires Valid()
      modifies this
      ensures Valid()
      ensures outbox == old(outbox) + [Envelope(asker, WhoHasResourceResponse(resource, resource in localResource, self))]
      ensures LocalUnchanged() && RoutingUnchanged()
    {
      var result := resource in localResource;
      outbox := outbox + [Envelope(asker, WhoHasResourceResponse(resource, result, self))];
    }

    /** A positive locate reply for an open session: every buffered
        operation goes to the responder in order, which becomes the cached owner. */
    method FlushSession(resource: ResourceName, responder: Actor)
      requires Valid() && resource in discoveryMap
      modifies this
      ensures Valid()
      ensures LocalUnchanged() && allManagers == old(allManagers)
      ensures outbox == old(outbox) + Forwards(old(discoveryMap)[resource].buffered, responder)
      ensures discoveryMap == old(discoveryMap) - {resource} && knownRemote == old(knownRemote)[resource := responder]
    {
      var process := discoveryMap[resource].buffered;
      var forwards := [];
      var i := 0;
      while i < |process|
        invariant 0 <= i <= |process|
        invariant forwards == Forwards(process[..i], responder)
      {
        assert process[..i + 1][..i] == process[..i];
        forwards := forwards + [Envelope(responder, Request(process[i]))];
        i := i + 1;
      }
      assert process[..i] == process;
      outbox := outbox + forwards;
      discoveryMap := discoveryMap - {resource};
      knownRemote := knownRemote[resource := responder];
    }

    /** A negative locate reply for an open session: one reply fewer is
        awaited; at zero every buffered request is denied as not found and
        the session is dropped. */
    method CountDown(resource: ResourceName)
      requires Valid() && resource in discoveryMap
      modifies this
      ensures Valid()
      ensures LocalUnchanged() && allManagers == old(allManagers) && knownRemote == old(knownRemote)
      ensures var session := old(discoveryMap)[resource];
        if session.count - 1 == 0 then
          outbox == old(outbox) + NotFoundReplies(session.buffered) && discoveryMap == old(discoveryMap) - {resource}
        else
          outbox == old(outbox) && discoveryMap == old(discoveryMap)[resource := session.(count := session.count - 1)]
    {
      var session := discoveryMap[resource];
      var process := session.buffered;
      var count := session.count - 1;
      if count == 0 {
        var replies := [];
        var i := 0;
        while i < |process|
          invariant 0 <= i <= |process|
          invariant replies == NotFoundReplies(process[..i])
        {
          assert process[..i + 1][..i] == process[..i];
          replies := replies + NotFoundReply(process[i]);
          i := i + 1;
        }
        assert process[..i] == process;
        outbox := outbox + replies;
        discoveryMap := discoveryMap - {resource};
      } else {
        discoveryMap := discoveryMap[resource := session.(count := count)];
      }
    }

    /** The effect of a locate reply on the discovery tables and the outbox:
        a reply with no open session changes nothing; a positive one forwards
        every buffered operation to the responder, caches it as the owner and
        closes the session; a negative one counts down, and at zero sends the
        not-found denials and closes the session. */
    twostate predicate Answered(resource: ResourceName, result: bool, responder: Actor)
      reads this
    {
      if resource !in old(discoveryMap) then
        outbox == old(outbox) && discoveryMap == old(discoveryMap) && knownRemote == old(knownRemote)
      else if result then
        outbox == old(outbox) + Forwards(old(discoveryMap)[resource].buffered, responder) &&
        discoveryMap == old(discoveryMap) - {resource} && knownRemote == old(knownRemote)[resource := responder]
      else
        var session := old(discoveryMap)[resource];
        knownRemote == old(knownRemote) &&
        if session.count - 1 == 0 then
          outbox == old(outbox) + NotFoundReplies(session.buffered) && discoveryMap == old(discoveryMap) - {resource}
        else
          outbox == old(outbox) && discoveryMap == old(discoveryMap)[resource := session.(count := session.count - 1)]
    }

    /** A locate reply from a peer. */
    method ReceiveWhoHasResponse(resource: ResourceName, result: bool, responder: Actor)
      requires Valid()
      modifies this
      ensures Valid()
      ensures LocalUnchanged() && allManagers == old(allManagers)
      ensures Answered(resource, result, responder)
      ensures old(Partitioned()) ==> Partitioned()
    {
      if resource !in discoveryMap {
        // a late or stray reply: nothing to resolve
        return;
      }
      if result {
        FlushSession(resource, responder);
      } else {
        CountDown(resource);
      }
    }

    /** The mailbox: each inbound message goes to its handler; a message of
        any other kind is dropped. */
    method OnReceive(sender: Actor, m: Message)
      requires Valid()
      modifies this
      ensures Valid()
      ensures m.AddRemoteManagersRequest? ==>
        allManagers == old(allManagers) + (set a | a in m.managers && a != self) &&
        outbox == old(outbox) + [Envelope(sender, AddRemoteManagersResponse(m.managers))] &&
        LocalUnchanged() && knownRemote == old(knownRemote) && discoveryMap == old(discoveryMap)
      ensures m.AddInitialLocalResourcesRequest? ==>
        localResource == old(localResource) + (map n | n in m.resources :: Enabled) &&
        outbox == old(outbox) + [Envelope(sender, AddInitialLocalResourcesResponse(m.resources))] &&
        resourceAccess == old(resourceAccess) && accessQueue == old(accessQueue) &&
        pendingDisable == old(pendingDisable) && RoutingUnchanged()
      ensures m.AddLocalUsersRequest? ==>
        outbox == old(outbox) + [Envelope(sender, AddLocalUsersResponse(m.users))] && LocalUnchanged() && RoutingUnchanged()
      ensures m.Request? && m.op.AccessOp? ==>
        if m.op.access.request.resourceName in old(localResource) then Arbitrated(m.op.access) else Routed(m.op)
      ensures m.Request? && m.op.ReleaseOp? ==> ReleaseHandled(m.op.rel, true) || ReleaseHandled(m.op.rel, false)
      ensures m.Request? && m.op.ManageOp? ==>
        if m.op.manage.request.resourceName in old(localResource) then ManagedLocally(m.op.manage) else Routed(m.op)
      ensures m.WhoHasResourceRequest? ==>
        outbox == old(outbox) + [Envelope(m.asker, WhoHasResourceResponse(m.resourceName, m.resourceName in localResource, self))] &&
        LocalUnchanged() && RoutingUnchanged()
      ensures m.WhoHasResourceResponse? ==>
        Answered(m.resourceName, m.result, m.responder) && LocalUnchanged() && allManagers == old(allManagers)
      ensures (m.AddRemoteManagersResponse? || m.AddInitialLocalResourcesResponse? || m.AddLocalUsersResponse? ||
               m.AccessRequestGranted? || m.AccessRequestDenied? || m.ManagementRequestGranted? ||
               m.ManagementRequestDenied?) ==>
        LocalUnchanged() && RoutingUnchanged() && outbox == old(outbox)
      ensures old(Partitioned()) && !m.AddInitialLocalResourcesRequest? ==> Partitioned()
    {
      match m {
        case AddRemoteManagersRequest(managers) =>
          AddRemoteManagers(sender, managers);
        case AddInitialLocalResourcesRequest(resources) =>
          AddInitialLocalResources(sender, resources);
        case AddLocalUsersRequest(users) =>
          AddLocalUsers(sender, users);
        case Request(op) =>
          match op {
            case ReleaseOp(rel) =>
              var _ := ReceiveAccessRelease(rel);
            case AccessOp(access) =>
              ReceiveAccessRequest(access);
            case ManageOp(manage) =>
              ReceiveManagementRequest(manage);
          }
        case WhoHasResourceRequest(resource, asker) =>
          ReceiveWhoHasRequest(resource, asker);
        case WhoHasResourceResponse(resource, result, responder) =>
          ReceiveWhoHasResponse(resource, result, responder);
        case _ =>
      }
    }
  }
}
