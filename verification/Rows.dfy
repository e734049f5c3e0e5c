/** The tables of the control plane: every row carries its tenant. */
module Rows {
  import opened Wrappers

  type Id = string

  /** Microseconds. */
  type Time = int

  const MINUTE := 60_000_000

  datatype Row<D> = Row(tenant: string, data: D)

  type Table<D> = map<Id, Row<D>>

  datatype User = User(
    subject: string, displayName: string, email: Option<string>, passwordHash: string, roles: seq<string>,
    vpnAddress: Option<string>, allowedIps: string, policyVersion: int, active: bool, updatedAt: Time)

  datatype Device = Device(owner: string, name: string, registered: bool, revokedAt: Option<Time>)

  datatype SupportState = Pending | Accepted | Denied | Expired | Ended

  datatype SupportRequest = SupportRequest(
    requester: string, device: Id, purpose: string, permissions: seq<string>, state: SupportState,
    expiresAt: Time, decidedAt: Option<Time>, endedAt: Option<Time>)

  datatype FileServer = FileServer(name: string, host: string, shares: seq<string>, enabled: bool, updatedAt: Time)

  datatype Network = Network(
    name: string, addressCidr: string, endpoint: string, listenPort: nat, dns: Option<string>, enabled: bool, updatedAt: Time)

  datatype Peer = Peer(
    networkId: Id, name: string, publicKey: string, address: string, allowedIps: string, keepalive: nat,
    enabled: bool, revokedAt: Option<Time>)

  datatype Profile = Profile(
    name: string, networkId: Id, allowedIps: string, fileServerIds: seq<Id>, targetSubjects: seq<string>,
    vpnOnLogin: bool, sharesOnLogin: bool, revision: nat, enabled: bool, updatedAt: Time)

  datatype Enrollment = Enrollment(
    profileId: Id, subject: string, tokenHash: string, expiresAt: Time, createdBy: string, usedAt: Option<Time>)

  datatype Action =
    | InstallationAdminCreated | SessionLogin
    | FileServerCreated | FileServerUpdated | FileServerDisabled
    | DeploymentCreated | DeploymentUpdated | DeploymentDisabled | DeploymentDownloaded
    | UserCreated | UserDeleted | UserUpdated
    | ClientBootstrapped | VpnClientEnrolled
    | DeviceRegistered | DeviceRevoked
    | SupportRequested | SupportAccepted | SupportDenied | SupportExpired | SupportEnded
    | NetworkConfigured | PeerCreated | PeerRoutesUpdated | PeerRevoked

  datatype TargetType = OnUser | OnFileServer | OnDeployment | OnDevice | OnPeer | OnSupportRequest | OnNetwork

  datatype Event = Event(tenant: string, actor: string, action: Action, targetType: TargetType, targetId: Id, at: Time)

  datatype Db = Db(
    initialized: bool, users: Table<User>, devices: Table<Device>, requests: Table<SupportRequest>,
    servers: Table<FileServer>, networks: Table<Network>, peers: Table<Peer>, profiles: Table<Profile>,
    enrollments: Table<Enrollment>, audit: seq<Event>)

  const EMPTY := Db(false, map[], map[], map[], map[], map[], map[], map[], map[], [])
}
