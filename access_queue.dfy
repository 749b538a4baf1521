/** The single global FIFO of blocked access requests: removing the requests
    for a resource being disabled, and the head-of-line re-evaluation pass
    that runs after a release. */
module AccessQueue {
  import opened Protocol
  import opened LockTable

  /** The queued requests that do not name `name`, in queue order. */
  function Without(queue: seq<AccessRequestMsg>, name: ResourceName): (r: seq<AccessRequestMsg>)
    ensures forall m :: m in r ==> m in queue && m.request.resourceName != name
  {
    if queue == [] then []
    else (if queue[0].request.resourceName == name then [] else [queue[0]]) + Without(queue[1..], name)
  }

  /** The queued requests that name `name`, in queue order. */
  function Naming(queue: seq<AccessRequestMsg>, name: ResourceName): (r: seq<AccessRequestMsg>)
    ensures forall m :: m in r ==> m in queue && m.request.resourceName == name
  {
    if queue == [] then []
    else (if queue[0].request.resourceName == name then [queue[0]] else []) + Naming(queue[1..], name)
  }

  lemma {:induction false} WithoutAppend(a: seq<AccessRequestMsg>, b: seq<AccessRequestMsg>, name: ResourceName)
    ensures Without(a + b, name) == Without(a, name) + Without(b, name)
  {
    if a != [] {
      assert (a + b)[0] == a[0];
      assert (a + b)[1..] == a[1..] + b;
      WithoutAppend(a[1..], b, name);
    } else {
      assert a + b == b;
    }
  }

  lemma {:induction false} NamingAppend(a: seq<AccessRequestMsg>, b: seq<AccessRequestMsg>, name: ResourceName)
    ensures Naming(a + b, name) == Naming(a, name) + Naming(b, name)
  {
    if a != [] {
      assert (a + b)[0] == a[0];
      assert (a + b)[1..] == a[1..] + b;
      NamingAppend(a[1..], b, name);
    } else {
      assert a + b == b;
    }
  }

  lemma FilterSingle(m: AccessRequestMsg, name: ResourceName)
    ensures Without([m], name) == (if m.request.resourceName == name then [] else [m])
    ensures Naming([m], name) == (if m.request.resourceName == name then [m] else [])
  {
  }

  /** The two filters split the queue: every request lands in exactly one of them. */
  lemma {:induction false} PurgePartition(queue: seq<AccessRequestMsg>, name: ResourceName)
    ensures multiset(Without(queue, name)) + multiset(Naming(queue, name)) == multiset(queue)
  {
    if queue != [] {
      PurgePartition(queue[1..], name);
      assert queue == [queue[0]] + queue[1..];
    }
  }

  /** A queue with no request for `name` is left as it is. */
  lemma {:induction false} WithoutUnrelated(queue: seq<AccessRequestMsg>, name: ResourceName)
    requires forall m :: m in queue ==> m.request.resourceName != name
    ensures Without(queue, name) == queue && Naming(queue, name) == []
  {
    if queue != [] {
      assert queue[0] in queue;
      assert forall m :: m in queue[1..] ==> m in queue;
      WithoutUnrelated(queue[1..], name);
      assert queue == [queue[0]] + queue[1..];
    }
  }

  /** The removal loop run by a DISABLE: it takes every request for `name`
      out of the queue and collects them in order for their denials. */
  method Purge(queue: seq<AccessRequestMsg>, name: ResourceName) returns (kept: seq<AccessRequestMsg>, purged: seq<AccessRequestMsg>)
    ensures kept == Without(queue, name) && purged == Naming(queue, name)
  {
    kept, purged := [], [];
    var i := 0;
    while i < |queue|
      invariant 0 <= i <= |queue|
      invariant kept == Without(queue[..i], name) && purged == Naming(queue[..i], name)
    {
      var access := queue[i];
      assert queue[..i + 1] == queue[..i] + [access];
      WithoutAppend(queue[..i], [access], name);
      NamingAppend(queue[..i], [access], name);
      FilterSingle(access, name);
      if access.request.resourceName == name {
        purged := purged + [access];
      } else {
        kept := kept + [access];
      }
      i := i + 1;
    }
    assert queue[..i] == queue;
  }

  /** The grant replies for `ms`, in order. */
  function GrantedReplies(ms: seq<AccessRequestMsg>): seq<Envelope>
    decreases |ms|
  {
    if ms == [] then []
    else GrantedReplies(ms[..|ms| - 1]) + [Envelope(ms[|ms| - 1].replyTo, AccessRequestGranted(ms[|ms| - 1].request))]
  }

  /** The RESOURCE_DISABLED denials for the purged requests `ms`, in order. */
  function DisabledDenials(ms: seq<AccessRequestMsg>): seq<Envelope>
    decreases |ms|
  {
    if ms == [] then []
    else DisabledDenials(ms[..|ms| - 1]) + [Envelope(ms[|ms| - 1].replyTo, AccessRequestDenied(ms[|ms| - 1].request, ResourceDisabled))]
  }

  /** The lock table after granting `m`: one more grant, in the request's mode, at the end of its list. */
  function Admit(table: map<ResourceName, seq<UserAccess>>, m: AccessRequestMsg): map<ResourceName, seq<UserAccess>> {
    table[m.request.resourceName := GrantsOf(table, m.request.resourceName) + [UserAccess(m.replyTo, m.request.requestType.Mode())]]
  }

  /** The lock table after granting every request of `ms` in turn. */
  function AdmitAll(table: map<ResourceName, seq<UserAccess>>, ms: seq<AccessRequestMsg>): map<ResourceName, seq<UserAccess>>
    decreases |ms|
  {
    if ms == [] then table else AdmitAll(Admit(table, ms[0]), ms[1..])
  }

  /** The request at the head of the queue can be granted against `table`. */
  predicate HeadCompatible(table: map<ResourceName, seq<UserAccess>>, m: AccessRequestMsg) {
    Compatible(GrantsOf(table, m.request.resourceName), m.replyTo, m.request.requestType)
  }

  /** Granting a compatible request keeps mutual exclusion on every resource of the table. */
  lemma AdmitKeepsTableExclusive(table: map<ResourceName, seq<UserAccess>>, m: AccessRequestMsg)
    requires forall n :: n in table ==> Exclusive(table[n])
    requires HeadCompatible(table, m)
    ensures forall n :: n in Admit(table, m) ==> Exclusive(Admit(table, m)[n])
  {
  }

  /** Outcome of one re-evaluation pass: how many requests were granted
      from the front of the queue, and the lock table afterwards. */
  datatype Pass = Pass(admitted: nat, table: map<ResourceName, seq<UserAccess>>)

  /** One re-evaluation pass: grant from the front while the head is
      compatible with the current grants, and stop at the first that is not. */
  function Reevaluate(queue: seq<AccessRequestMsg>, table: map<ResourceName, seq<UserAccess>>): (r: Pass)
    ensures r.admitted <= |queue|
    decreases |queue|
  {
    if queue == [] then Pass(0, table)
    else if HeadCompatible(table, queue[0]) then
      var rest := Reevaluate(queue[1..], Admit(table, queue[0]));
      Pass(rest.admitted + 1, rest.table)
    else Pass(0, table)
  }

  /** The granted requests form a prefix in which each one was compatible
      with the grants in force when its turn came, and the table afterwards
      is the old one with exactly those grants added, in queue order. */
  lemma {:induction false} ReevaluateGrantsPrefix(queue: seq<AccessRequestMsg>, table: map<ResourceName, seq<UserAccess>>)
    ensures var r := Reevaluate(queue, table);
      r.table == AdmitAll(table, queue[..r.admitted]) &&
      forall i :: 0 <= i < r.admitted ==> HeadCompatible(AdmitAll(table, queue[..i]), queue[i])
  {
    var r := Reevaluate(queue, table);
    if queue != [] && HeadCompatible(table, queue[0]) {
      var t := queue[1..];
      var a := Admit(table, queue[0]);
      ReevaluateGrantsPrefix(t, a);
      assert queue[..r.admitted][1..] == t[..r.admitted - 1];
      forall i | 0 <= i < r.admitted ensures HeadCompatible(AdmitAll(table, queue[..i]), queue[i]) {
        if i > 0 {
          assert queue[..i][1..] == t[..i - 1];
          assert queue[i] == t[i - 1];
        }
      }
    }
  }

  /** The pass stops only at the end of the queue or at a request that is
      incompatible with the grants made so far (strict head-of-line). */
  lemma {:induction false} ReevaluateStopsAtBlocker(queue: seq<AccessRequestMsg>, table: map<ResourceName, seq<UserAccess>>)
    ensures var r := Reevaluate(queue, table);
      r.admitted == |queue| || !HeadCompatible(r.table, queue[r.admitted])
  {
    if queue != [] && HeadCompatible(table, queue[0]) {
      ReevaluateStopsAtBlocker(queue[1..], Admit(table, queue[0]));
    }
  }

  /** Granting through the queue keeps mutual exclusion on every resource. */
  lemma {:induction false} ReevaluateKeepsExclusive(queue: seq<AccessRequestMsg>, table: map<ResourceName, seq<UserAccess>>)
    requires forall n :: n in table ==> Exclusive(table[n])
    ensures var r := Reevaluate(queue, table);
      forall n :: n in r.table ==> Exclusive(r.table[n])
  {
    if queue != [] && HeadCompatible(table, queue[0]) {
      AdmitKeepsTableExclusive(table, queue[0]);
      ReevaluateKeepsExclusive(queue[1..], Admit(table, queue[0]));
      assert Reevaluate(queue, table).table == Reevaluate(queue[1..], Admit(table, queue[0])).table;
    }
  }

  /** Granting the head of the remaining queue advances a pass by one. */
  lemma ReevaluateStep(queue: seq<AccessRequestMsg>, table: map<ResourceName, seq<UserAccess>>, i: nat,
                       rest: seq<AccessRequestMsg>, current: map<ResourceName, seq<UserAccess>>)
    requires rest != [] && HeadCompatible(current, rest[0])
    requires Reevaluate(queue, table) == Pass(i + Reevaluate(rest, current).admitted, Reevaluate(rest, current).table)
    ensures Reevaluate(queue, table) ==
      Pass(i + 1 + Reevaluate(rest[1..], Admit(current, rest[0])).admitted, Reevaluate(rest[1..], Admit(current, rest[0])).table)
  {
  }

  /** One more granted request adds its grant reply at the end. */
  lemma GrantedRepliesStep(before: seq<Envelope>, queue: seq<AccessRequestMsg>, i: nat)
    requires i < |queue|
    ensures before + GrantedReplies(queue[..i + 1]) ==
      before + GrantedReplies(queue[..i]) + [Envelope(queue[i].replyTo, AccessRequestGranted(queue[i].request))]
  {
    assert queue[..i + 1][..i] == queue[..i];
  }

  /** A pass grants nothing more when the head is blocked, whatever follows it. */
  lemma HeadOfLineBlocking(queue: seq<AccessRequestMsg>, table: map<ResourceName, seq<UserAccess>>)
    requires queue != [] && !HeadCompatible(table, queue[0])
    ensures Reevaluate(queue, table) == Pass(0, table)
  {
  }
}
