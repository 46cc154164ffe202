/** The append-only audit entry written when a partner accepts the agreement. */
module AgreementLogModel {
  import opened Common

  datatype AgreementLog = AgreementLog(
    id: Id,
    franchiseId: Id,
    agreementVersion: string,
    acceptedAt: Time,
    signatureData: Option<string>,
    ipAddress: Option<string>,
    userAgent: Option<string>,
    pdfUrl: Option<string>)

  /** `new AgreementLog({...})`: the required `franchiseId` and `acceptedAt` are given,
      `agreementVersion` defaults to "1.0" and `pdfUrl` to null. */
  function NewAgreementLog(id: Id, franchiseId: Id, acceptedAt: Time, signatureData: Option<string>,
                           ipAddress: Option<string>, userAgent: Option<string>): (l: AgreementLog)
    ensures l.id == id && l.franchiseId == franchiseId && l.acceptedAt == acceptedAt
    ensures l.agreementVersion == "1.0"
    ensures l.signatureData == signatureData && l.ipAddress == ipAddress && l.userAgent == userAgent
    ensures l.pdfUrl.None?
  {
    AgreementLog(id, franchiseId, "1.0", acceptedAt, signatureData, ipAddress, userAgent, None)
  }
}
