/** Verified message sequences on fresh nodes: locating a remote resource
    and forwarding to its owner, a writer that is refused, queued, and
    granted when the reader releases, a discovery that every peer answers
    negatively, and two releases of a resource with no grant list. */
module Scenarios {
  import opened Protocol
  import opened LockTable
  import opened AccessQueue
  import opened Discovery
  import opened ResourceManager

  /** Node 11, configured with peer 10, owns the enabled resource "printer1". */
  method PrinterOwner() returns (b: ResourceManagerActor)
    ensures fresh(b) && b.Valid() && b.self == 11
    ensures b.localResource == map["printer1" := Enabled] && b.pendingDisable == map[] && b.Grants("printer1") == []
  {
    b := new ResourceManagerActor(11);
    b.AddRemoteManagers(0, [10, 11]);
    b.AddInitialLocalResources(0, ["printer1"]);
    assert b.localResource == map["printer1" := Enabled];
  }

  /** Node 10 owns nothing, node 11 owns "printer1"; client 1 asks node 10
      for an exclusive write. Node 10 knows no owner, so it opens a session
      and sends a locate query to its only peer. */
  method AskPeers() returns (a: ResourceManagerActor, query: Envelope)
    ensures fresh(a) && a.Valid() && a.self == 10
    ensures a.localResource == map[] && a.knownRemote == map[]
    ensures a.discoveryMap == map["printer1" :=
      DiscoverySession(1, [AccessOp(AccessRequestMsg(AccessRequest("printer1", ExclusiveWriteBlocking), 1))])]
    ensures query == Envelope(11, WhoHasResourceRequest("printer1", 10))
    ensures a.outbox == [Envelope(0, AddRemoteManagersResponse([10, 11])), query]
  {
    a := new ResourceManagerActor(10);
    a.AddRemoteManagers(0, [10, 11]);
    assert a.allManagers == {11};
    var mark := |a.outbox|;
    a.ReceiveAccessRequest(AccessRequestMsg(AccessRequest("printer1", ExclusiveWriteBlocking), 1));
    assert a.outbox[mark..][0].to in {11};
    query := a.outbox[mark];
  }

  /** Continuing: the owner answers the query, node 10 caches it and forwards
      the original request unchanged, and the owner grants it to the client. */
  method LocateAndForward() returns (answer: Envelope, forward: Envelope, reply: Envelope, owner: Actor)
    ensures answer == Envelope(10, WhoHasResourceResponse("printer1", true, 11))
    ensures forward == Envelope(11, Request(AccessOp(AccessRequestMsg(AccessRequest("printer1", ExclusiveWriteBlocking), 1))))
    ensures reply == Envelope(1, AccessRequestGranted(AccessRequest("printer1", ExclusiveWriteBlocking)))
    ensures owner == 11
  {
    var a, query := AskPeers();
    var b := PrinterOwner();
    var req := AccessRequestMsg(AccessRequest("printer1", ExclusiveWriteBlocking), 1);

    b.ReceiveWhoHasRequest(query.msg.resourceName, query.msg.asker);
    answer := b.outbox[|b.outbox| - 1];

    var mark := |a.outbox|;
    a.ReceiveWhoHasResponse(answer.msg.resourceName, answer.msg.result, answer.msg.responder);
    assert [AccessOp(req)][..0] == [];
    forward := a.outbox[mark];
    owner := a.knownRemote["printer1"];

    b.ReceiveAccessRequest(forward.msg.op.access);
    reply := b.outbox[|b.outbox| - 1];
  }

  /** Resource "db" on node 0: client 1 reads; client 2's nonblocking write
      is refused as busy and its blocking write is queued without a reply. */
  method WriterQueuedBehindReader() returns (node: ResourceManagerActor, busy: Envelope, queuedReplies: nat)
    ensures fresh(node) && node.Valid()
    ensures node.localResource == map["db" := Enabled] && node.pendingDisable == map[]
    ensures node.Grants("db") == [UserAccess(1, ConcurrentRead)]
    ensures node.accessQueue == [AccessRequestMsg(AccessRequest("db", ExclusiveWriteBlocking), 2)]
    ensures busy == Envelope(2, AccessRequestDenied(AccessRequest("db", ExclusiveWriteNonblocking), ResourceBusy))
    ensures queuedReplies == 0
  {
    node := new ResourceManagerActor(0);
    node.AddInitialLocalResources(9, ["db"]);
    assert node.localResource == map["db" := Enabled];

    node.ReceiveAccessRequest(AccessRequestMsg(AccessRequest("db", ConcurrentReadBlocking), 1));
    assert node.resourceAccess["db"] == [UserAccess(1, ConcurrentRead)];

    var refused := AccessRequestMsg(AccessRequest("db", ExclusiveWriteNonblocking), 2);
    ReaderBlocksWriter(node.resourceAccess["db"], 0, 2, refused.request.requestType);
    node.ReceiveAccessRequest(refused);
    busy := node.outbox[|node.outbox| - 1];

    var mark := |node.outbox|;
    var write := AccessRequestMsg(AccessRequest("db", ExclusiveWriteBlocking), 2);
    ReaderBlocksWriter(node.resourceAccess["db"], 0, 2, write.request.requestType);
    node.ReceiveAccessRequest(write);
    queuedReplies := |node.outbox| - mark;
  }

  /** Continuing: when client 1 releases its read, the grant list drains and
      the queued write of client 2 is granted and becomes the only grant. */
  method WriterWaitsForReader() returns (released: bool, granted: Envelope, held: seq<UserAccess>, waiting: nat)
    ensures released
    ensures granted == Envelope(2, AccessRequestGranted(AccessRequest("db", ExclusiveWriteBlocking)))
    ensures held == [UserAccess(2, ExclusiveWrite)]
    ensures waiting == 0
  {
    var node, _, _ := WriterQueuedBehindReader();
    var write := AccessRequestMsg(AccessRequest("db", ExclusiveWriteBlocking), 2);
    var release := AccessReleaseMsg(AccessRelease("db", ConcurrentRead), 1);
    assert node.Grants("db")[0] == UserAccess(1, ConcurrentRead);
    assert RemoveFirst([UserAccess(1, ConcurrentRead)], UserAccess(1, ConcurrentRead)) == [];
    ghost var mid := node.resourceAccess["db" := []];
    assert Reevaluate([write], mid) == Pass(1, Admit(mid, write));
    assert [write][..1] == [write];
    released := node.ReceiveAccessRelease(release);
    assert GrantedReplies([write]) == [Envelope(2, AccessRequestGranted(write.request))];
    granted := node.outbox[|node.outbox| - 1];
    held := node.Grants("db");
    waiting := |node.accessQueue|;
  }

  /** Node 10 has peers 11 and 12, neither owning "scanner". A request for
      it opens a session awaiting two replies, after a query to each peer. */
  method ScannerRequest() returns (a: ResourceManagerActor, queries: nat)
    ensures fresh(a) && a.Valid()
    ensures a.localResource == map[] && a.knownRemote == map[] && a.accessQueue == []
    ensures a.discoveryMap == map["scanner" := DiscoverySession(2, [
      AccessOp(AccessRequestMsg(AccessRequest("scanner", ConcurrentReadBlocking), 1))])]
    ensures queries == 2
  {
    a := new ResourceManagerActor(10);
    a.AddRemoteManagers(0, [11, 12]);
    assert a.allManagers == {11, 12};
    var mark := |a.outbox|;
    a.ReceiveAccessRequest(AccessRequestMsg(AccessRequest("scanner", ConcurrentReadBlocking), 1));
    queries := |a.outbox| - mark;
  }

  /** Continuing: a release for the same name joins the session's buffer
      behind the request, and nothing is sent. */
  method ScannerSession() returns (a: ResourceManagerActor, sent: nat)
    ensures fresh(a) && a.Valid()
    ensures a.discoveryMap == map["scanner" := DiscoverySession(2, [
      AccessOp(AccessRequestMsg(AccessRequest("scanner", ConcurrentReadBlocking), 1)),
      ReleaseOp(AccessReleaseMsg(AccessRelease("scanner", ConcurrentRead), 1))])]
    ensures sent == 0
  {
    var queries;
    a, queries := ScannerRequest();
    var req := AccessRequestMsg(AccessRequest("scanner", ConcurrentReadBlocking), 1);
    var rel := AccessReleaseMsg(AccessRelease("scanner", ConcurrentRead), 1);
    assert Reevaluate([], a.resourceAccess) == Pass(0, a.resourceAccess);
    var mark := |a.outbox|;
    var _ := a.ReceiveAccessRelease(rel);
    sent := |a.outbox| - mark;
    assert [AccessOp(req)] + [ReleaseOp(rel)] == [AccessOp(req), ReleaseOp(rel)];
  }

  /** Continuing: the first negative reply only counts down; after the
      second the request is denied as not found, the release gets no reply,
      and the session is gone. */
  method NobodyOwnsIt() returns (afterFirst: nat, denials: seq<Envelope>, open: bool)
    ensures afterFirst == 0
    ensures denials == [Envelope(1, AccessRequestDenied(AccessRequest("scanner", ConcurrentReadBlocking), AccessResourceNotFound))]
    ensures !open
  {
    var a, _ := ScannerSession();
    var req := AccessRequestMsg(AccessRequest("scanner", ConcurrentReadBlocking), 1);
    var rel := AccessReleaseMsg(AccessRelease("scanner", ConcurrentRead), 1);

    var mark := |a.outbox|;
    a.ReceiveWhoHasResponse("scanner", false, 11);
    afterFirst := |a.outbox| - mark;
    assert a.discoveryMap["scanner"] == DiscoverySession(1, [AccessOp(req), ReleaseOp(rel)]);

    mark := |a.outbox|;
    a.ReceiveWhoHasResponse("scanner", false, 12);
    assert [AccessOp(req), ReleaseOp(rel)][..1] == [AccessOp(req)];
    assert [AccessOp(req)][..0] == [];
    assert NotFoundReplies([AccessOp(req), ReleaseOp(rel)]) == NotFoundReply(AccessOp(req));
    denials := a.outbox[mark..];
    open := "scanner" in a.discoveryMap;
  }

  /** Node 0 owns "db", which has never been requested or disabled. */
  method UntouchedOwner() returns (node: ResourceManagerActor)
    ensures fresh(node) && node.Valid()
    ensures node.localResource == map["db" := Enabled] && node.pendingDisable == map[]
    ensures node.resourceAccess == map[] && node.accessQueue == []
  {
    node := new ResourceManagerActor(0);
    node.AddInitialLocalResources(9, ["db"]);
    assert node.localResource == map["db" := Enabled];
  }

  /** Continuing: a release of "db". As written the handler throws before it
      changes any field or sends anything, while the model reads the missing
      entry as an empty list and ignores the release. */
  method UntouchedRelease() returns (aborted: bool, released: bool, grants: seq<UserAccess>, sent: nat)
    ensures aborted
    ensures !released && grants == [] && sent == 0
  {
    var node := UntouchedOwner();
    var release := AccessReleaseMsg(AccessRelease("db", ExclusiveWrite), 1);
    var ignored;
    aborted, ignored := node.ReceiveAccessReleaseAsWritten(release);
    assert node.accessQueue == [] && node.Grants("db") == [] && node.pendingDisable == map[];
    assert Reevaluate([], node.resourceAccess) == Pass(0, node.resourceAccess);
    var mark := |node.outbox|;
    released := node.ReceiveAccessRelease(release);
    grants := node.Grants("db");
    sent := |node.outbox| - mark;
  }

  /** Node 0 owns "x", "y" and "db"; client 1 writes "x" and client 3 writes "y". */
  method TwoWriters() returns (node: ResourceManagerActor)
    ensures fresh(node) && node.Valid()
    ensures node.localResource == map["x" := Enabled, "y" := Enabled, "db" := Enabled] && node.pendingDisable == map[]
    ensures node.resourceAccess == map["x" := [UserAccess(1, ExclusiveWrite)], "y" := [UserAccess(3, ExclusiveWrite)]]
    ensures node.accessQueue == []
  {
    node := new ResourceManagerActor(0);
    node.AddInitialLocalResources(9, ["x", "y", "db"]);
    assert node.localResource == map["x" := Enabled, "y" := Enabled, "db" := Enabled];
    var first := AccessRequestMsg(AccessRequest("x", ExclusiveWriteBlocking), 1);
    assert GrantsOf(map[], "x") + [UserAccess(1, ExclusiveWrite)] == [UserAccess(1, ExclusiveWrite)];
    node.ReceiveAccessRequest(first);
    assert node.resourceAccess == map["x" := [UserAccess(1, ExclusiveWrite)]];
    assert GrantsOf(node.resourceAccess, "y") + [UserAccess(3, ExclusiveWrite)] == [UserAccess(3, ExclusiveWrite)];
    node.ReceiveAccessRequest(AccessRequestMsg(AccessRequest("y", ExclusiveWriteBlocking), 3));
  }

  /** Continuing: a blocking write on "x" by client 2 and then a blocking
      read on "y" by client 4 are queued. */
  method TwoQueuedWaiters() returns (node: ResourceManagerActor)
    ensures fresh(node) && node.Valid()
    ensures node.localResource == map["x" := Enabled, "y" := Enabled, "db" := Enabled] && node.pendingDisable == map[]
    ensures node.resourceAccess == map["x" := [UserAccess(1, ExclusiveWrite)], "y" := [UserAccess(3, ExclusiveWrite)]]
    ensures node.accessQueue == [AccessRequestMsg(AccessRequest("x", ExclusiveWriteBlocking), 2),
                                 AccessRequestMsg(AccessRequest("y", ConcurrentReadBlocking), 4)]
  {
    node := TwoWriters();
    var w := AccessRequestMsg(AccessRequest("x", ExclusiveWriteBlocking), 2);
    WriterBlocksOthers(node.resourceAccess["x"], 0, 2, w.request.requestType);
    node.ReceiveAccessRequest(w);
    var r := AccessRequestMsg(AccessRequest("y", ConcurrentReadBlocking), 4);
    WriterBlocksOthers(node.resourceAccess["y"], 0, 4, r.request.requestType);
    node.ReceiveAccessRequest(r);
  }

  /** Continuing: client 3 releases "y", but the pass stops at the blocked
      write on "x", so the read on "y" stays queued behind it. */
  method FreedBehindBlockedHead() returns (node: ResourceManagerActor)
    ensures fresh(node) && node.Valid()
    ensures node.localResource == map["x" := Enabled, "y" := Enabled, "db" := Enabled] && node.pendingDisable == map[]
    ensures node.resourceAccess == map["x" := [UserAccess(1, ExclusiveWrite)], "y" := []]
    ensures node.accessQueue == [AccessRequestMsg(AccessRequest("x", ExclusiveWriteBlocking), 2),
                                 AccessRequestMsg(AccessRequest("y", ConcurrentReadBlocking), 4)]
  {
    node := TwoQueuedWaiters();
    var w := AccessRequestMsg(AccessRequest("x", ExclusiveWriteBlocking), 2);
    var r := AccessRequestMsg(AccessRequest("y", ConcurrentReadBlocking), 4);
    ghost var mid := node.resourceAccess["y" := []];
    assert RemoveFirst([UserAccess(3, ExclusiveWrite)], UserAccess(3, ExclusiveWrite)) == [];
    WriterBlocksOthers(mid["x"], 0, 2, w.request.requestType);
    HeadOfLineBlocking([w, r], mid);
    var released := node.ReceiveAccessRelease(AccessReleaseMsg(AccessRelease("y", ExclusiveWrite), 3));
    assert node.resourceAccess == mid;
  }

  /** Continuing: client 5 disables "x", which purges the blocked write from
      the head of the queue without a pass, so the read on "y" is left at the
      head although nothing stands in its way. */
  method UnblockedHead() returns (node: ResourceManagerActor)
    ensures fresh(node) && node.Valid()
    ensures "db" in node.localResource && "db" !in node.resourceAccess
    ensures "y" in node.resourceAccess && node.resourceAccess["y"] == []
    ensures node.accessQueue == [AccessRequestMsg(AccessRequest("y", ConcurrentReadBlocking), 4)]
  {
    node := FreedBehindBlockedHead();
    var w := AccessRequestMsg(AccessRequest("x", ExclusiveWriteBlocking), 2);
    var r := AccessRequestMsg(AccessRequest("y", ConcurrentReadBlocking), 4);
    assert !HeldBy([UserAccess(1, ExclusiveWrite)], 5);
    assert [w, r] == [w] + [r];
    WithoutAppend([w], [r], "x");
    node.ReceiveManagementRequest(ManagementRequestMsg(ManagementRequest("x", Disable), 5));
  }

  /** Continuing: a release of "db", which has no grant list. As written the
      handler throws before the pass, so nothing is sent and client 4 is not
      granted; in the model the release is ignored and the pass that follows
      grants the read. */
  method ReleaseSkipsPass() returns (aborted: bool, sentAsWritten: nat, granted: Envelope, waiting: nat)
    ensures aborted && sentAsWritten == 0
    ensures granted == Envelope(4, AccessRequestGranted(AccessRequest("y", ConcurrentReadBlocking)))
    ensures waiting == 0
  {
    var node := UnblockedHead();
    var r := AccessRequestMsg(AccessRequest("y", ConcurrentReadBlocking), 4);
    var release := AccessReleaseMsg(AccessRelease("db", ExclusiveWrite), 6);
    var ignored;
    var mark := |node.outbox|;
    aborted, ignored := node.ReceiveAccessReleaseAsWritten(release);
    sentAsWritten := |node.outbox| - mark;
    ghost var table := node.resourceAccess;
    assert Reevaluate([r], table) == Pass(1, Admit(table, r));
    assert [r][..1] == [r];
    assert GrantedReplies([r]) == [Envelope(4, AccessRequestGranted(r.request))];
    var released := node.ReceiveAccessRelease(release);
    granted := node.outbox[|node.outbox| - 1];
    waiting := |node.accessQueue|;
  }
}
