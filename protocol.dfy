/** The messages a resource manager node exchanges with clients and peers,
    and the enumerations they carry. Actor references are opaque identities
    compared only for equality; resource names are strings. */
module Protocol {

  /** An actor reference (a client, a peer manager or the node itself). */
  type Actor = nat

  type ResourceName = string

  datatype ResourceStatus = Enabled | Disabled

  /** The mode a grant is held in. */
  datatype AccessType = ConcurrentRead | ExclusiveWrite

  /** The four request variants: a mode and whether the requester is willing to wait. */
  datatype AccessRequestType =
    | ConcurrentReadBlocking
    | ConcurrentReadNonblocking
    | ExclusiveWriteBlocking
    | ExclusiveWriteNonblocking
  {
    predicate IsWrite() {
      ExclusiveWriteBlocking? || ExclusiveWriteNonblocking?
    }

    predicate IsBlocking() {
      ConcurrentReadBlocking? || ExclusiveWriteBlocking?
    }

    /** The mode recorded in the grant when the request is granted. */
    function Mode(): AccessType {
      if IsWrite() then ExclusiveWrite else ConcurrentRead
    }
  }

  datatype AccessRequest = AccessRequest(resourceName: ResourceName, requestType: AccessRequestType)

  /** An access request together with the actor the answer goes to. */
  datatype AccessRequestMsg = AccessRequestMsg(request: AccessRequest, replyTo: Actor)

  datatype AccessRelease = AccessRelease(resourceName: ResourceName, accessType: AccessType)

  /** A release together with the client whose grant is released. */
  datatype AccessReleaseMsg = AccessReleaseMsg(release: AccessRelease, sender: Actor)

  datatype ManagementRequestType = Enable | Disable

  datatype ManagementRequest = ManagementRequest(resourceName: ResourceName, requestType: ManagementRequestType)

  datatype ManagementRequestMsg = ManagementRequestMsg(request: ManagementRequest, replyTo: Actor)

  datatype AccessRequestDenialReason = ResourceDisabled | ResourceBusy | AccessResourceNotFound

  datatype ManagementRequestDenialReason = AccessHeldByUser | ManagementResourceNotFound

  /** The three client messages that name a resource and may have to be
      forwarded to, or buffered for, the node that owns it. */
  datatype Operation =
    | AccessOp(access: AccessRequestMsg)
    | ReleaseOp(rel: AccessReleaseMsg)
    | ManageOp(manage: ManagementRequestMsg)
  {
    function ResourceName(): ResourceName {
      match this
      case AccessOp(a) => a.request.resourceName
      case ReleaseOp(r) => r.release.resourceName
      case ManageOp(m) => m.request.resourceName
    }
  }

  /** Every message a node receives or sends. A forwarded client message is
      the original message unchanged, so the owner answers the client directly. */
  datatype Message =
    | AddRemoteManagersRequest(managers: seq<Actor>)
    | AddRemoteManagersResponse(managers: seq<Actor>)
    | AddInitialLocalResourcesRequest(resources: seq<ResourceName>)
    | AddInitialLocalResourcesResponse(resources: seq<ResourceName>)
    | AddLocalUsersRequest(users: seq<Actor>)
    | AddLocalUsersResponse(users: seq<Actor>)
    | Request(op: Operation)
    | AccessRequestGranted(accessRequest: AccessRequest)
    | AccessRequestDenied(accessRequest: AccessRequest, accessReason: AccessRequestDenialReason)
    | ManagementRequestGranted(managementRequest: ManagementRequest)
    | ManagementRequestDenied(managementRequest: ManagementRequest, managementReason: ManagementRequestDenialReason)
    | WhoHasResourceRequest(resourceName: ResourceName, asker: Actor)
    | WhoHasResourceResponse(resourceName: ResourceName, result: bool, responder: Actor)

  /** A message addressed to an actor: one entry of a node's outbox. */
  datatype Envelope = Envelope(to: Actor, msg: Message)
}
