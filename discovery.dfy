/** The discovery tracker: one session per resource name whose owner is
    being located, the broadcast of locate queries to every peer, and the
    messages a session sends when it resolves. */
module Discovery {
  import opened Protocol

  /** An open session: the number of locate replies still awaited and the
      operations buffered for the name, in arrival order. */
  datatype DiscoverySession = DiscoverySession(count: int, buffered: seq<Operation>)

  /** `queries` asks every peer, exactly once, whether it owns `name`. */
  predicate IsBroadcast(queries: seq<Envelope>, peers: set<Actor>, name: ResourceName, self: Actor) {
    |queries| == |peers| &&
    (forall i :: 0 <= i < |queries| ==> queries[i].to in peers && queries[i].msg == WhoHasResourceRequest(name, self)) &&
    (forall p :: p in peers ==> exists i :: 0 <= i < |queries| && queries[i].to == p) &&
    (forall i, j :: 0 <= i < j < |queries| ==> queries[i].to != queries[j].to)
  }

  /** The loop that opens a session: one locate query per peer, counting
      each one. The order of the peers is not determined. */
  method Broadcast(peers: set<Actor>, name: ResourceName, self: Actor) returns (queries: seq<Envelope>, count: int)
    ensures count == |peers|
    ensures IsBroadcast(queries, peers, name, self)
  {
    queries, count := [], 0;
    var rest := peers;
    while rest != {}
      invariant rest <= peers
      invariant count == |queries| && |queries| + |rest| == |peers|
      invariant forall i :: 0 <= i < |queries| ==> queries[i].to in peers - rest && queries[i].msg == WhoHasResourceRequest(name, self)
      invariant forall p :: p in peers - rest ==> exists i :: 0 <= i < |queries| && queries[i].to == p
      invariant forall i, j :: 0 <= i < j < |queries| ==> queries[i].to != queries[j].to
      decreases |rest|
    {
      var managers :| managers in rest;
      ghost var before, restBefore := queries, rest;
      queries := queries + [Envelope(managers, WhoHasResourceRequest(name, self))];
      count := count + 1;
      rest := rest - {managers};
      forall p | p in peers - rest ensures exists i :: 0 <= i < |queries| && queries[i].to == p {
        if p == managers {
          assert queries[|queries| - 1].to == p;
        } else {
          assert p in peers - restBefore;
          var i :| 0 <= i < |before| && before[i].to == p;
          assert queries[i] == before[i];
        }
      }
    }
    assert peers - rest == peers;
  }

  /** A positive reply: every buffered operation goes, unchanged and in order, to the owner. */
  function Forwards(ops: seq<Operation>, owner: Actor): seq<Envelope>
    decreases |ops|
  {
    if ops == [] then [] else Forwards(ops[..|ops| - 1], owner) + [Envelope(owner, Request(ops[|ops| - 1]))]
  }

  /** What a buffered operation gets when no peer owns its resource: access
      and management requests are denied as not found, a release gets nothing. */
  function NotFoundReply(op: Operation): seq<Envelope> {
    match op
    case AccessOp(a) => [Envelope(a.replyTo, AccessRequestDenied(a.request, AccessResourceNotFound))]
    case ManageOp(m) => [Envelope(m.replyTo, ManagementRequestDenied(m.request, ManagementResourceNotFound))]
    case ReleaseOp(_) => []
  }

  /** The replies of an exhausted session, in buffer order. */
  function NotFoundReplies(ops: seq<Operation>): seq<Envelope>
    decreases |ops|
  {
    if ops == [] then [] else NotFoundReplies(ops[..|ops| - 1]) + NotFoundReply(ops[|ops| - 1])
  }

  /** A session for `name` buffers at least the operation that opened it, and only operations for `name`. */
  predicate SessionFor(d: DiscoverySession, name: ResourceName) {
    |d.buffered| > 0 && forall k :: 0 <= k < |d.buffered| ==> d.buffered[k].ResourceName() == name
  }

  /** A not-found denial, of either kind. */
  predicate IsNotFoundDenial(e: Envelope) {
    (e.msg.AccessRequestDenied? && e.msg.accessReason == AccessResourceNotFound) ||
    (e.msg.ManagementRequestDenied? && e.msg.managementReason == ManagementResourceNotFound)
  }

  /** An exhausted session sends only not-found denials, one to the requester
      of every buffered access and management request. */
  lemma {:induction false} NotFoundRepliesAnswerEveryRequest(ops: seq<Operation>)
    ensures forall e :: e in NotFoundReplies(ops) ==> IsNotFoundDenial(e)
    ensures forall k :: 0 <= k < |ops| && ops[k].AccessOp? ==>
      Envelope(ops[k].access.replyTo, AccessRequestDenied(ops[k].access.request, AccessResourceNotFound)) in NotFoundReplies(ops)
    ensures forall k :: 0 <= k < |ops| && ops[k].ManageOp? ==>
      Envelope(ops[k].manage.replyTo, ManagementRequestDenied(ops[k].manage.request, ManagementResourceNotFound)) in NotFoundReplies(ops)
  {
    if ops != [] {
      var init := ops[..|ops| - 1];
      NotFoundRepliesAnswerEveryRequest(init);
      forall k | 0 <= k < |ops| - 1 ensures ops[k] == init[k] { }
    }
  }

  /** A session whose buffer holds only releases resolves silently. */
  lemma {:induction false} NotFoundRepliesOfReleases(ops: seq<Operation>)
    requires forall k :: 0 <= k < |ops| ==> ops[k].ReleaseOp?
    ensures NotFoundReplies(ops) == []
  {
    if ops != [] {
      NotFoundRepliesOfReleases(ops[..|ops| - 1]);
    }
  }
  /** The access and management requests of a buffer, in buffer order: what is left once its releases are dropped. */
  function Requests(ops: seq<Operation>): (r: seq<Operation>)
    ensures |r| <= |ops|
    ensures forall k :: 0 <= k < |r| ==> !r[k].ReleaseOp? && r[k] in ops
    decreases |ops|
  {
    if ops == [] then []
    else Requests(ops[..|ops| - 1]) + (if ops[|ops| - 1].ReleaseOp? then [] else [ops[|ops| - 1]])
  }

  /** Whatever else the buffer holds, its releases add nothing to the replies
      of an exhausted session: the replies are those of its requests alone,
      one per request. */
  lemma {:induction false} NotFoundRepliesSkipReleases(ops: seq<Operation>)
    ensures NotFoundReplies(ops) == NotFoundReplies(Requests(ops))
    ensures |NotFoundReplies(ops)| == |Requests(ops)|
    decreases |ops|
  {
    if ops != [] {
      var init, last := ops[..|ops| - 1], ops[|ops| - 1];
      NotFoundRepliesSkipReleases(init);
      assert NotFoundReplies(ops) == NotFoundReplies(init) + NotFoundReply(last);
      if last.ReleaseOp? {
        assert Requests(ops) == Requests(init);
      } else {
        var r := Requests(init) + [last];
        assert Requests(ops) == r;
        assert r[..|r| - 1] == Requests(init);
        assert NotFoundReplies(r) == NotFoundReplies(Requests(init)) + NotFoundReply(last);
      }
    }
  }
}
