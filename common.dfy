/** Shared vocabulary of the onboarding server: identifiers, abstract timestamps,
    user roles, the authenticated actor and the replies a route handler sends. */
module Common {

  /** A document identifier (a Mongo ObjectId, abstractly). */
  type Id = nat

  /** An abstract timestamp (a JavaScript Date). */
  type Time = nat

  datatype Option<T> = None | Some(value: T) {
    function GetOr(default: T): T {
      match this
      case Some(v) => v
      case None => default
    }
  }

  /** The roles of the user directory. */
  datatype Role = Admin | Hr | OperationalHead | FranchisePartner | ChannelPartner

  /** The two kinds of partner account (the `partnerType` enum). */
  datatype PartnerType = FranchiseType | ChannelType

  function PartnerRole(p: PartnerType): (r: Role)
    ensures r == FranchisePartner || r == ChannelPartner
    ensures r == ChannelPartner <==> p == ChannelType
  {
    match p
    case FranchiseType => FranchisePartner
    case ChannelType => ChannelPartner
  }

  /** The request-body value `"franchise_partner"` or `"channel_partner"`, as the
      `isIn([...])` validators of the routes accept it. */
  function ParsePartnerType(s: string): (r: Option<PartnerType>)
    ensures r == Some(FranchiseType) <==> s == "franchise_partner"
    ensures r == Some(ChannelType) <==> s == "channel_partner"
  {
    if s == "franchise_partner" then Some(FranchiseType)
    else if s == "channel_partner" then Some(ChannelType)
    else None
  }

  /** The already-authenticated caller (`req.user`). */
  datatype Actor = Actor(id: Id, role: Role)

  /** What a 404 answer reports as missing. */
  datatype Missing = EnquiryMissing | FranchiseMissing | FranchiseDetailsMissing

  /** Why a 400 answer with a message refused the request. */
  datatype Refusal =
    | ApprovalRefused   // no approval step for this role and status
    | ProfileIncomplete // acceptance before the profile is complete
    | AlreadyAccepted   // a second acceptance
    | NotYetAccepted    // printing before acceptance

  /** Why a handler refused a request. */
  datatype Failure =
    | ValidationFailed           // 400 with the validator's error list
    | Forbidden                  // refused by the role gate before the handler runs
    | NotFound(missing: Missing) // 404
    | BadRequest(reason: Refusal) // 400 with a message
    | ServerError                // 500 "Server error": a thrown exception

  /** A handler's answer: a success status with its JSON payload, or a failure. */
  datatype Reply<T> = Done(status: nat, value: T) | Fail(failure: Failure)
}
