/** The lock table of one resource: the ordered list of grants currently
    held on it, the reader/writer compatibility rule, and the scans the
    manager runs over the list. */
module LockTable {
  import opened Protocol

  /** One grant: the holder and the mode it holds. A holder may hold several
      grants on the same resource; each is a separate entry. */
  datatype UserAccess = UserAccess(user: Actor, access: AccessType)

  /** The grants of `name` in a lock table; a resource with no entry has none. */
  function GrantsOf(table: map<ResourceName, seq<UserAccess>>, name: ResourceName): seq<UserAccess> {
    if name in table then table[name] else []
  }

  /** An existing grant does not stand in the way of a new request: it is the
      requester's own, or it is a read grant and the request is a read. */
  predicate Permits(grant: UserAccess, requester: Actor, requestType: AccessRequestType) {
    grant.user == requester || (grant.access == ConcurrentRead && !requestType.IsWrite())
  }

  /** A request can be granted now against the grant list. */
  predicate Compatible(grants: seq<UserAccess>, requester: Actor, requestType: AccessRequestType) {
    forall i :: 0 <= i < |grants| ==> Permits(grants[i], requester, requestType)
  }

  /** Mutual exclusion: when some grant is an exclusive write, every grant on
      the resource belongs to that holder. */
  predicate Exclusive(grants: seq<UserAccess>) {
    forall i, j :: 0 <= i < |grants| && 0 <= j < |grants| && grants[i].access == ExclusiveWrite ==>
      grants[j].user == grants[i].user
  }

  /** The requester holds at least one grant, in either mode. */
  predicate HeldBy(grants: seq<UserAccess>, user: Actor) {
    exists i :: 0 <= i < |grants| && grants[i].user == user
  }

  /** The grant list with the first entry equal to `g` taken out. */
  function RemoveFirst(grants: seq<UserAccess>, g: UserAccess): seq<UserAccess> {
    if grants == [] then []
    else if grants[0] == g then grants[1..]
    else [grants[0]] + RemoveFirst(grants[1..], g)
  }

  /** The compatibility scan over the grant list (the `canAccess` loop). */
  method CanAccess(list: seq<UserAccess>, sender: Actor, typeRequest: AccessRequestType) returns (canAccess: bool)
    ensures canAccess <==> Compatible(list, sender, typeRequest)
  {
    canAccess := true;
    var i := 0;
    while i < |list|
      invariant 0 <= i <= |list|
      invariant forall j :: 0 <= j < i ==> Permits(list[j], sender, typeRequest)
    {
      var user := list[i];
      if user.access == ExclusiveWrite && user.user != sender {
        canAccess := false;
        break;
      } else if user.access == ConcurrentRead && user.user != sender {
        if typeRequest.IsWrite() {
          canAccess := false;
          break;
        }
      }
      i := i + 1;
    }
  }

  /** The release scan: the position of the first grant with this holder and mode, if any. */
  method FindGrant(list: seq<UserAccess>, holder: Actor, access: AccessType) returns (hasAccess: bool, index: nat)
    ensures hasAccess <==> UserAccess(holder, access) in list
    ensures hasAccess ==> index < |list| && list[index] == UserAccess(holder, access)
    ensures hasAccess ==> UserAccess(holder, access) !in list[..index]
  {
    hasAccess, index := false, 0;
    var i := 0;
    while i < |list|
      invariant 0 <= i <= |list|
      invariant UserAccess(holder, access) !in list[..i]
    {
      var userAccess := list[i];
      if userAccess.user == holder && userAccess.access == access {
        hasAccess, index := true, i;
        return;
      }
      assert list[..i + 1] == list[..i] + [list[i]];
      i := i + 1;
    }
    assert list[..i] == list;
  }

  /** The scan that decides whether a DISABLE comes from a current holder. */
  method HoldsAccess(list: seq<UserAccess>, user: Actor) returns (held: bool)
    ensures held <==> HeldBy(list, user)
  {
    held := false;
    var i := 0;
    while i < |list|
      invariant 0 <= i <= |list|
      invariant forall j :: 0 <= j < i ==> list[j].user != user
    {
      if list[i].user == user {
        held := true;
        return;
      }
      i := i + 1;
    }
  }

  /** Granting a compatible request keeps mutual exclusion. */
  lemma AdmitKeepsExclusive(grants: seq<UserAccess>, requester: Actor, requestType: AccessRequestType)
    requires Exclusive(grants) && Compatible(grants, requester, requestType)
    ensures Exclusive(grants + [UserAccess(requester, requestType.Mode())])
  {
  }

  /** Reader sharing: read grants of any holders never stand in the way of a read. */
  lemma ReadersShare(grants: seq<UserAccess>, requester: Actor, requestType: AccessRequestType)
    requires forall i :: 0 <= i < |grants| ==> grants[i].access == ConcurrentRead
    requires !requestType.IsWrite()
    ensures Compatible(grants, requester, requestType)
    ensures Exclusive(grants + [UserAccess(requester, requestType.Mode())])
  {
  }

  /** An exclusive write by another holder blocks every request. */
  lemma WriterBlocksOthers(grants: seq<UserAccess>, k: nat, requester: Actor, requestType: AccessRequestType)
    requires k < |grants| && grants[k].access == ExclusiveWrite && grants[k].user != requester
    ensures !Compatible(grants, requester, requestType)
  {
  }

  /** A read held by another holder blocks every write request. */
  lemma ReaderBlocksWriter(grants: seq<UserAccess>, k: nat, requester: Actor, requestType: AccessRequestType)
    requires k < |grants| && grants[k].access == ConcurrentRead && grants[k].user != requester
    requires requestType.IsWrite()
    ensures !Compatible(grants, requester, requestType)
  {
  }

  /** Taking one grant out keeps mutual exclusion. */
  lemma RemoveKeepsExclusive(grants: seq<UserAccess>, k: nat)
    requires Exclusive(grants) && k < |grants|
    ensures Exclusive(grants[..k] + grants[k + 1..])
  {
  }

  /** RemoveFirst takes out exactly the entry at the first position that matches. */
  lemma {:induction false} RemoveFirstAt(grants: seq<UserAccess>, g: UserAccess, k: nat)
    requires k < |grants| && grants[k] == g && g !in grants[..k]
    ensures RemoveFirst(grants, g) == grants[..k] + grants[k + 1..]
  {
    if k > 0 {
      assert grants[0] in grants[..k];
      assert grants[1..][..k - 1] == grants[1..k];
      RemoveFirstAt(grants[1..], g, k - 1);
      assert grants[..k] == [grants[0]] + grants[1..][..k - 1];
      assert grants[k + 1..] == grants[1..][k..];
    }
  }

  /** Without a match RemoveFirst changes nothing. */
  lemma {:induction false} RemoveFirstAbsent(grants: seq<UserAccess>, g: UserAccess)
    requires g !in grants
    ensures RemoveFirst(grants, g) == grants
  {
    if grants != [] {
      assert grants[1..] + [] == grants[1..];
      assert g !in grants[1..] by {
        forall x | x in grants[1..] ensures x in grants { }
      }
      RemoveFirstAbsent(grants[1..], g);
      assert [grants[0]] + grants[1..] == grants;
    }
  }

  /** RemoveFirst removes one occurrence of `g` at most, and nothing else. */
  lemma {:induction false} RemoveFirstMultiset(grants: seq<UserAccess>, g: UserAccess)
    ensures multiset(RemoveFirst(grants, g)) == multiset(grants) - multiset{g}
  {
    if grants != [] {
      assert grants == [grants[0]] + grants[1..];
      if grants[0] != g {
        RemoveFirstMultiset(grants[1..], g);
      }
    }
  }
}
