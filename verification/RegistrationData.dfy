/** The tables of the registration database (registration-server/app/models.py) and the requests and
    outcomes of its handlers. Identifiers, serials, keys, tokens and session tokens are values that
    the handlers only compare for equality. */
module RegistrationData {
  import opened Prelude

  type Id = int
  type Serial = int
  type PublicKey = int
  type Secret = int

  datatype Status = Pending | ActivationRequired | Active | Suspended | Revoked | Expired | HardwareMismatch

  datatype LicenseStatus = LicenseActive | LicenseSuspended | LicenseRevoked

  datatype Purpose = Authenticating | Activating

  datatype LicenseAction = SuspendLicense | RevokeLicense | ResumeLicense

  datatype Customer = Customer(archivedAt: Option<Time>)

  datatype Device = Device(serial: Serial, archivedAt: Option<Time>, status: Status, customer: Option<Id>)

  datatype Installation = Installation(device: Id, current: bool)

  /** A key row; its unique public key is the map key it is stored under. */
  datatype Key = Key(installation: Id, current: bool)

  datatype License = License(customer: Id, perpetual: bool, status: LicenseStatus, maxDevices: nat,
                             expiresAt: Option<Time>)

  datatype Token = Token(device: Id, installation: Id, key: PublicKey, license: Id, expiresAt: Time,
                         usedAt: Option<Time>)

  /** The canonical text a device signs. */
  datatype Message = Message(version: int, audience: string, challenge: Id, nonce: string, serial: Serial,
                             installation: Id, key: PublicKey, purpose: Purpose, expiresAt: int)

  /** An Ed25519 signature; it verifies under exactly the key and message it was made with. */
  datatype Signature = Signature(signer: PublicKey, message: Message)

  datatype Challenge = Challenge(device: Id, installation: Id, key: PublicKey, serial: Serial, purpose: Purpose,
                                 message: Message, expiresAt: Time, usedAt: Option<Time>)

  datatype Session = Session(device: Id, installation: Id, key: PublicKey, expiresAt: Time)

  /** The payload of a signed authorization document. */
  datatype Payload = Payload(version: int, audience: string, device: Id, serial: Serial, installation: Id,
                             key: PublicKey, license: Id, status: Status, issuedAt: int, expiresAt: int)

  /** The whole database; `issued` is the set of payloads that carry the server's signature. */
  datatype Db = Db(
    customers: map<Id, Customer>,
    devices: map<Id, Device>,
    installations: map<Id, Installation>,
    keys: map<PublicKey, Key>,
    licenses: map<Id, License>,
    bindings: map<Id, Id>,
    tokens: map<Secret, Token>,
    challenges: map<Id, Challenge>,
    sessions: map<Secret, Session>,
    issued: set<Payload>)

  const EMPTY: Db := Db(map[], map[], map[], map[], map[], map[], map[], map[], map[], {})

  datatype SettingsRaw = SettingsRaw(audience: string, graceSeconds: nat, challengeSeconds: nat,
                                     sessionSeconds: nat)

  /** registration-server/app/config.py bounds its durations. */
  type Settings = c: SettingsRaw |
      60 <= c.graceSeconds <= 604800 && 15 <= c.challengeSeconds <= 300 && 30 <= c.sessionSeconds <= 900
    witness SettingsRaw("", 86400, 120, 300)

  datatype Proof = Proof(challenge: Id, signature: Signature)

  /** One request. A parameter called `fresh...` is the identifier or secret the server draws at random. */
  datatype Request =
    | Enroll(serial: Serial, installation: Id, publicKey: PublicKey, freshDevice: Id)
    | AskChallenge(serial: Serial, installation: Id, publicKey: PublicKey, purpose: Purpose,
                   freshChallenge: Id, nonce: string)
    | Verify(proof: Proof, freshSession: Secret)
    | Activate(proof: Proof, token: Secret, freshSession: Secret)
    | Heartbeat(session: Secret, freshSession: Secret)
    | CreateCustomer(freshCustomer: Id)
    | ArchiveCustomer(customer: Id)
    | RestoreCustomer(customer: Id)
    | CreateLicense(owner: Id, perpetual: bool, maxDevices: nat, validUntil: Option<Time>, freshLicense: Id)
    | RenewLicense(license: Id, until: Time)
    | ControlLicense(license: Id, action: LicenseAction)
    | CreateDevice(serial: Serial, holder: Option<Id>, freshDevice: Id)
    | UpdateDevice(device: Id, holder: Option<Id>)
    | ArchiveDevice(device: Id)
    | RestoreDevice(device: Id)
    | Approve(device: Id, installation: Id, publicKey: PublicKey, license: Id, ttlSeconds: nat,
              freshToken: Secret)
    | Suspend(device: Id)
    | Revoke(device: Id)
    | Reassign(device: Id)

  datatype Reply =
    | Enrolled(device: Id, installation: Id, status: Status)
    | Challenged(challenge: Id, message: Message)
    | Authorized(device: Id, status: Status, document: Option<Payload>)
    | Approved(token: Secret)
    | Done

  /** How a request ends. `Rejected` is `reject`: the transaction is committed, then the error is raised.
      Every other error rolls the transaction back: `Refused` is an HTTPException, `Conflict` an
      IntegrityError, `Crashed` an unhandled exception. */
  datatype Outcome =
    | Ok(reply: Reply)
    | Rejected(code: nat, kind: string)
    | Refused(code: nat)
    | Conflict
    | Crashed

  datatype Result = Result(db: Db, outcome: Outcome)
}
