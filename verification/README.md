# Project G-One control plane: a verified model

This project models the control plane of Project G-One, a self-hosted service that manages users, devices, support
sessions and WireGuard clients of several tenants, together with the scripts that prepare its settings. The model is written
in Dafny and states what the program keeps over all inputs, all interleavings of first-run setup, and all runs of requests.

Check it with `dafny verify dfyconfig.toml`.

## How the model is laid out

- **Arithmetic of keys.** `Modular` (congruences, Fermat, modular division), `Curve` (projective formulas and one ladder
  round), `CurveLaws` (tangent and chord constructions), `X25519` (clamping, the ladder loop, key text), `Base64`.
- **Text formats.** `Text`, `Decimal`, `StringOrder`, `IPv4`, `Routes`, `ServerConfig`, `PeerNames`, `ClientConfig`, `Json`,
  `Token`, `SettingsFile`, `EnsureEnvironment`, `SqlLiteral`. Each has a writer and a reader and the laws that connect them.
- **Tables and sessions.** `Rows` (one datatype per table row), `Tables` (queries by tenant, steps that stay within a tenant,
  the view of a tenant), `Session` (a class with the working tables and the committed state).
- **Endpoints.** `Support`, `FileServers`, `Deployments`, `Accounts`, `Vpn`, `Clients`. Each endpoint is a method on a
  `Session` that changes the tables step by step, commits or rolls back, and is proved against a decision that reads the
  rows of one tenant only. `Endpoints` dispatches requests to them; `ControlPlane` is the resulting state machine.
- **What each request does.** `AccountEffects`, `FileServerEffects`, `DeploymentEffects`, `SupportEffects`, `VpnEffects`,
  `ClientEffects`, `BootstrapEffects`: on the stored rows themselves, when each request is accepted, the whole new state and the
  answer, without reference to how the endpoints decide.
- **What holds over runs.** `ControlPlane` (non-interference of tenants), `SupportLog` and `SupportRuns`,
  `ProfileIntegrity`, `UniqueRows`, `AccountPolicies`, `Revisions`, `ServerKey`, `EnrollmentCodes`, `Refusals`,
  `Administration`, `Runtime`, `Revocation`, `Handshake`, and `AcceptedPeers` with `ExampleHistory` for histories that show a failure.
  `Setup` treats first-run setup as interleaved sub-steps of concurrent transactions.

The clock, fresh row ids, random keys and codes, the engine's row order, the outcome of applying a configuration, and the hash
functions are inputs of a step (`Env`, `Config`). `ValidEnv` says that drawn ids and codes are new and that the row order lists
every row once. Time is in microseconds; each request reads the clock once.

Where the program does not keep a property that one would expect, the model keeps the program and states the exact condition:

- A write of a setting is shadowed by a later line that spells the key with blanks before the equals sign
  (`SettingsFile.WriteTakesEffectIff`, `SettingsFile.ShadowExample`).
- Updating a user may take away the last administrator of a tenant, deleting one may not
  (`Administration.LastAdministratorLostIff`, `Administration.UpdateTakesTheLastAdministrator`).
- A peer's name with line breaks can add headings and entries to the server's text. The text reads as the stored rows if and
  only if every later line of every enabled peer's name is blank, a comment or ignored (`PeerNames.RenderedSectionsIff`,
  `Runtime.InterfaceAgreesWithDatabase`); `PeerNames.NameAddsPeer`, `AcceptedPeers.LoudRequestDisagrees` and
  `ExampleHistory.LoudHistory` give the failing names.
- A client reads what its configuration was rendered from if and only if the lines carry the endpoint and the DNS text
  (`ClientConfig.RenderedClientReads`); `ClientConfig.CutEndpointReads` and `ExampleHistory.CutEndpointHistory` give an endpoint
  that is accepted, stored and cut short.
- A required setting with a value and, further down, without one counts as present and reads blank
  (`EnsureEnvironment.CompleteIff`, `EnsureEnvironment.ClearedKeyStaysBlank`).
- All tenants share one interface, which runs with the network of the tenant whose change was applied last, or after a restart
  with the one updated last (`Runtime.InterfaceAgreesWithDatabase`, `Runtime.CommittedChangesAreRunning`).

A bootstrap describes the network after its commit, which fails under a server key that is set but unusable. No run gets there:
nothing is stored under such a key (`ServerKey.ReachableIsDescribable`), so a failed bootstrap never spends a code
(`EnrollmentCodes.FailedAttemptsLeaveCodes`).

Primality of 2^255-19 is a hypothesis of the theorems that need it; the lemmas are stated for every prime.

## Model

| member | source | states |
|---|---|---|
| X25519.MontgomeryLadder | src/g_one/wireguard.py:28-44 | the loop with its five locals, bit by bit from 254 down and with the exchange deferred to the next round, ends in the settled state of the recursive ladder over the same bits |
| X25519.Round | src/g_one/wireguard.py:37-42 | the nine reduced assignments of one round yield the pair that `Curve.RoundIsCurveArithmetic` characterises |
| Curve.RoundIsCurveArithmetic | src/g_one/wireguard.py:37-42 | modulo any m > 0 one round gives ((x2^2-z2^2)^2, 4 x2 z2 (x2^2 + 486662 x2 z2 + z2^2)) and (4 (x2 x3 - z2 z3)^2, 36 (x2 z3 - z2 x3)^2): the doubling of the first point and the differential addition of both |
| Curve.RoundTracks | src/g_one/wireguard.py:33-42 | one round takes a state that holds multiples n and n+1 up to projective scaling, exchanged exactly when the pending flag is 1, to a state that holds 2n+bit and 2n+bit+1 with the bit pending |
| X25519.LadderTracks | src/g_one/wireguard.py:32-42 | for every scalar, length and position: after consuming the bits above a position the ladder holds the multiples of that prefix, exchanged exactly when the pending flag is 1 |
| X25519.LadderComputesMultiple | src/g_one/wireguard.py:32-44 | for a scalar of any length the settled ladder is, up to scaling, the recursively defined multiple M(scalar) (section 5 of RFC 7748) |
| CurveLaws.DoublingLaw | src/g_one/wireguard.py:37-42 | on v^2 = u^3 + 486662u^2 + u (section 4.1 of RFC 7748) the doubled point has the u-coordinate of the tangent construction, for every tangent slope |
| CurveLaws.AdditionLaw | src/g_one/wireguard.py:37-42 | for two points with different u-coordinates whose difference has u = 9, differential addition gives the u-coordinate of the chord construction |
| Modular.PowModIsPow | src/g_one/wireguard.py:45 | square-and-multiply agrees with the power modulo m for all bases and exponents |
| Modular.Fermat | src/g_one/wireguard.py:45 | Fermat's little theorem for every prime and every a not divisible by it, by the permutation of the multiples of a |
| Modular.DivideInverts | src/g_one/wireguard.py:45 | for prime p and z not 0 mod p, x*z^(p-2) mod p is the one r in [0, p) with r*z = x mod p |
| Modular.DivideByZero | src/g_one/wireguard.py:45 | for z = 0 mod p the result is 0 |
| Modular.DivideIgnoresScaling | src/g_one/wireguard.py:45 | the quotient is unchanged when both coordinates are scaled by any nonzero factor |
| X25519.ClampInPlace | src/g_one/wireguard.py:23-26 | the three byte assignments on the array change its contents to `Clamp` of the old contents and nothing else |
| X25519.ClampedNumber | src/g_one/wireguard.py:23-26 | for every 32 bytes with little-endian value n, the clamped value is 2^254 + n mod 2^254 - n mod 8: bits 3 to 253 are kept, bit 254 is set, all others are cleared |
| X25519.ConstantsAreThoseOfTheCurve | src/g_one/wireguard.py:28-45 | the modulus is 2^255 - 19, the clamped top bit has weight 2^254, the curve coefficient is 486662 and the base point has u = 9 |
| X25519.ClampedScalar | src/g_one/wireguard.py:23-30 | for every 32 bytes the clamped scalar is 2^254 + 8k with k < 2^251 (decodeScalar25519, section 5 of RFC 7748) |
| X25519.ClampIsIdempotent | src/g_one/wireguard.py:23-26 | clamping twice is clamping once |
| X25519.ClampedKeysAgree | src/g_one/wireguard.py:22-46 | a key whose bytes are already clamped derives the same public key as the one it came from |
| X25519.PublicKey | src/g_one/wireguard.py:22-46 | validation, clamping, ladder, division and encoding as written give the derived key text, or the validation error |
| X25519.PublicKeyIsMultiple | src/g_one/wireguard.py:22-46 | with 2^255-19 prime, the derived key text decodes to the affine coordinate of the multiple of the base point by 2^254 + n mod 2^254 - n mod 8, where n is the key's value |
| X25519.DerivedKeyIsValid | src/g_one/wireguard.py:45-46 | the derived key is 44 characters, accepted by `validate_key`, and decodes back to the same integer |
| X25519.FromTo | src/g_one/wireguard.py:31-46 | little-endian encoding in n bytes is undone for every integer below 256^n |
| Base64.DecodeEncode | src/g_one/wireguard.py:12-19 | strict and lenient decoding undo encoding in both alphabets (sections 4 and 5 of RFC 4648) |
| Base64.DigitsAreThoseOfTheTables | src/g_one/wireguard.py:12-19 | the two alphabets are those of tables 1 and 2 of RFC 4648 |
| Base64.StrictShape | src/g_one/wireguard.py:12-19 | a text that strict decoding accepts has a multiple of four characters, all of the alphabet or padding |
| Base64.EncodeShape | src/g_one/models.py:129 | n bytes encode to 4*ceil(n/3) ASCII characters, 44 for a key |
| Base64.PaddingRestored | src/g_one/auth.py:29-33 | after removing the padding, appending `-len % 4` padding characters restores the encoding (section 2 of RFC 7515) |
| IPv4.RoundTrip | src/g_one/wireguard.py:99 | parsing the printed form of any interface or block returns it |
| IPv4.AddressIff | src/g_one/wireguard.py:99 | an address is accepted if and only if it is the printed form of one: four decimal octets up to 255 without leading zeros |
| IPv4.DottedQuad | src/g_one/wireguard.py:99 | the first octet is the top byte of the address |
| IPv4.ParseIff | src/g_one/wireguard.py:99 | a block is accepted if and only if it is an address, alone or with a mask behind a slash |
| IPv4.MaskForms | src/g_one/wireguard.py:99 | a mask may be a prefix length in digits or the netmask of one |
| IPv4.BlockSizeIsPower | src/g_one/wireguard.py:99 | a block of prefix length n has 2^(32-n) addresses |
| IPv4.NetworkKeepsBlock | src/g_one/wireguard.py:99 | clearing the host bits keeps exactly the same set of addresses and is idempotent (section 3.1 of RFC 4632) |
| IPv4.NetmaskLength | src/g_one/wireguard.py:99 | a dotted netmask means the prefix length it was built from |
| Routes.NormalizeIsIdempotent | src/g_one/wireguard.py:92-103 | normalizing an accepted list again returns it character for character |
| Routes.AcceptedIff | src/g_one/wireguard.py:92-103 | a list is accepted if and only if it has 1 to 32 routes, all of which are addresses or blocks |
| Routes.RoutesAre | src/g_one/wireguard.py:93 | the routes of a list are its stripped non-blank parts |
| Routes.ListsAreAccepted | src/g_one/wireguard.py:92-103 | texts listed with commas are accepted if and only if they are at most 32 and all are addresses or blocks |
| Routes.NormalizeKeepsAddresses | src/g_one/wireguard.py:92-103 | the normalized list routes an address if and only if the given list does |
| Routes.NormalizedBlocks | src/g_one/wireguard.py:98-99 | every entry parses to a block without host bits, in at most 18 characters |
| Routes.NormalizedOrder | src/g_one/wireguard.py:103 | no entry occurs twice, and entries stand in the order of their first occurrence |
| Routes.NormalizedFits | src/g_one/wireguard.py:96-103 | the result has at most 638 characters, so it fits the 1024 of its column |
| Routes.AddressBelongsIsCanonical | src/g_one/wireguard.py:106-111 | accepted addresses lie in the server's block, differ from the server's, and their canonical text is accepted again unchanged |
| Routes.BelongsIff | src/g_one/wireguard.py:106-111 | an address is accepted if and only if it lies in the server's block and is not the server's own |
| ServerConfig.RenderServerConfig | src/g_one/wireguard.py:54-78 | the growing list of lines yields the rendered text, disabled peers left out, or the key or interface error |
| ServerConfig.FirewallRules | src/g_one/wireguard.py:61-72 | the rules that the text adds at start and deletes at stop, in full |
| PeerNames.PeerReadsIff | src/g_one/wireguard.py:73-77 | the lines of an enabled peer read as its one section if and only if every line of its name after the first is blank, a comment or text that is ignored |
| PeerNames.RenderedSectionsIff | src/g_one/wireguard.py:54-78 | the rendered text reads as exactly the interface's section and one section for each enabled peer, in order, if and only if the names of the enabled peers are so |
| PeerNames.RenderedConfigReads | src/g_one/wireguard.py:54-78 | with such names the reading gives the private key, address and port, and exactly the enabled peers' keys, addresses and keepalives, in order |
| PeerNames.NameAddsPeer | src/g_one/wireguard.py:73-77 | one enabled peer with a name that spells a key, an address and another heading has the text of two peers, and is read as two: any key and address of the name's choice, and its own |
| ServerConfig.ValidKeyIsClean | src/g_one/wireguard.py:12-19 | accepted keys survive a configuration line unchanged |
| ClientConfig.RenderClientConfig | src/g_one/wireguard.py:81-89 | the growing list of lines yields the rendered client text, or the interface error where the routes default to the network |
| ClientConfig.RenderedClientReads | src/g_one/wireguard.py:81-89 | reading the client text gives exactly the private key, address, DNS, server key, endpoint and routes it was rendered from, if and only if the lines carry the endpoint and the DNS text |
| ClientConfig.FieldsCarriedIffClean | src/g_one/wireguard.py:86-88 | the lines carry these two if and only if they are not blank at either end, not empty, and free of line breaks and comment signs |
| ClientConfig.CutEndpointReads | src/g_one/wireguard.py:84-89 | an endpoint with a comment sign is read as what stands before the sign, without the port, and the other fields as they were rendered |
| SettingsFile.File.ReadEnvironment | scripts/configure_server.py:23-32 | the loop over the lines computes `Read` of the file's text; a missing file reads as empty |
| SettingsFile.File.WriteSetting | scripts/configure_server.py:35-60 | the loop with `updated` and `replaced` replaces the file's text by `Write` of the old text |
| SettingsFile.ReadAfterWrite | scripts/configure_server.py:23-48 | for every text: reading after a write gives the old value of every other key, and for the key the stripped new value unless a later line that spells the key with blanks shadows it |
| SettingsFile.ReadAfterCleanWrite | scripts/configure_server.py:23-48 | where no line spells the key with blanks before the equals sign, the new value is read |
| SettingsFile.WriteTakesEffectIff | scripts/configure_server.py:23-48 | writes of a key take effect for all values if and only if no such shadowing line follows the first line that the writer replaces |
| SettingsFile.ShadowedWrite | scripts/configure_server.py:23-48 | in a file of `K=a` and `K = b`, for any allowed key and values, no write of K changes what is read |
| SettingsFile.ShadowExample | scripts/configure_server.py:13-48 | `G_ONE_HTTP_PORT=8000` followed by `G_ONE_HTTP_PORT = 9000`: 9000 is read whatever port is written |
| SettingsFile.LastWriteWins | scripts/configure_server.py:35-48 | two writes of one key give the same text as the second alone |
| SettingsFile.WriteLeavesOneLine | scripts/configure_server.py:40-48 | after a write exactly one line spells the key, duplicates included |
| EnsureEnvironment.FindAssignedKeys | scripts/ensure_compose_env.py:24-33 | the loop collects exactly the keys with a non-blank assignment |
| EnsureEnvironment.Ensure | scripts/ensure_compose_env.py:36-66 | the file becomes the completed text, the additions are the missing settings in order, and nothing is written if none is missing |
| EnsureEnvironment.CompletedKeepsPrefix | scripts/ensure_compose_env.py:52-53 | the old text is a prefix of the new one |
| EnsureEnvironment.CompletedKeepsValues | scripts/ensure_compose_env.py:36-66 | every key with a non-blank assignment, and every key that is not required, reads as before |
| EnsureEnvironment.CompletedSuppliesValues | scripts/ensure_compose_env.py:36-66 | every other required key reads as its generated value |
| EnsureEnvironment.CompletedTwice | scripts/ensure_compose_env.py:36-66 | a second call, with other random values, adds nothing |
| EnsureEnvironment.CompleteIff | scripts/ensure_compose_env.py:24-66 | after completion every required key reads as a value if and only if, before it, no required key had a blank last assignment behind a non-blank one |
| EnsureEnvironment.ClearedKeyStaysBlank | scripts/ensure_compose_env.py:24-66 | in a file of `K=value` and `K=`, for every required key, K counts as assigned and reads blank after completion |
| EnsureEnvironment.RequiredSettingsAreValid | scripts/ensure_compose_env.py:14-46 | for secrets without blanks, as the generators produce them, the eleven required settings have distinct well-formed keys and one-line values, so the laws apply to them |
| EnsureEnvironment.FreshFileReads | scripts/ensure_compose_env.py:14-66 | a file completed from nothing reads as the five drawn secrets and the six defaults |
| SqlLiteral.ReplacesAreEscape | scripts/sync_database_credentials.py:21 | the two sequential replacements equal one escape per character |
| SqlLiteral.LiteralRoundTrip | scripts/sync_database_credentials.py:19-21 | for every string and every rest that does not start with a quote, lexing the literal gives that string and goes on with the rest |
| SqlLiteral.CredentialStatements | scripts/sync_database_credentials.py:30-35 | for a safe user name and all passwords the text lexes as exactly three statements, with the passwords as literals |
| Token.TokenRoundTrip | src/g_one/auth.py:36-90 | a token read with any settings: invalid without the issuer's signature of the same message, out of scope for another issuer or audience, expired from the issue time in whole seconds plus the lifetime on, refused with an empty subject or tenant, and otherwise its principal |
| Token.TokenCarries | src/g_one/auth.py:66-90 | the header and the six claims that a token carries, by their names |
| Token.AcceptedTokensAreSigned | src/g_one/auth.py:36-63 | an accepted token has exactly three parts and the signature of its first two, the expected header, issuer and audience, and a later expiry; the principal is the one its claims name; it was accepted at every earlier time |
| Json.ObjectRoundTrip | src/g_one/auth.py:72-85 | reading a printed object gives it back, for all strings through escapes and surrogate pairs |
| Token.PartRoundTrip | src/g_one/auth.py:29-33 | a part without padding decodes to the bytes it was made from |
| StringOrder.SortedIsUnique | src/g_one/auth.py:80 | a strictly sorted list is determined by its elements, so sorting a set has one answer |
| StringOrder.LessIff | src/g_one/auth.py:80 | the order is that of code points: a proper prefix first, otherwise the smaller character at the first difference |
| Text.StripMeans | src/g_one/api.py:140-141 | stripping takes away white space at both ends and nothing else, and leaves none there |
| Setup.OneAdministrator | src/g_one/api.py:104-132 | for any number of concurrent requests and every interleaving: at most one commits an administrator, the flag is committed true exactly when one has, and nobody is told otherwise before |
| Setup.StepKeepsInvariant | src/g_one/api.py:108-131 | the row lock names the one request that holds the claim; every step of every request and of other endpoints keeps that |
| Setup.FailedInsertReturnsClaim | src/g_one/api.py:124-128 | a failed insert gives the claim back, and any waiting request can take it |
| Setup.NoDeadlock | src/g_one/api.py:108-131 | while a request is unanswered some request can take its next step |
| Setup.RunsAreBounded | src/g_one/api.py:108-131 | n requests take at most 3n steps |
| Setup.AllAnswered | src/g_one/api.py:104-132 | once all are answered the lock is free, and without an administrator every request lost its account name or its connection |
| Setup.CreatedAccountIsStored | src/g_one/api.py:112-131 | in every interleaving the administrator that setup answered with is stored, unless the account was deleted since |
| Accounts.CreateInitialAdministrator | src/g_one/api.py:104-132 | one transaction of setup: flag, account and event together, or nothing |
| Accounts.CreateUserSession | src/g_one/api.py:136-157 | signs in an active account with the right password and logs it; otherwise changes nothing |
| Deployments.ValidateDeploymentProfile | src/g_one/api.py:201-238 | network, counts of enabled servers and of active users, and routes are checked among the rows of one tenant, in that order |
| FileServers.CreateFileServer | src/g_one/api.py:252-273 | its committed state, response and effect on the interface are those decided from the rows of its own tenant; a name in use rolls back with 409 |
| FileServers.UpdateFileServer | src/g_one/api.py:277-302 | its committed state, response and effect on the interface are those decided from the rows of its own tenant; refusals leave the row as it was |
| FileServers.DeleteFileServer | src/g_one/api.py:306-320 | its committed state, response and effect on the interface are those decided from the rows of its own tenant; the row stays, disabled |
| Deployments.CreateClientDeployment | src/g_one/api.py:343-375 | its committed state, response and effect on the interface are those decided from the rows of its own tenant; revision 1 |
| Deployments.UpdateClientDeployment | src/g_one/api.py:379-413 | its committed state, response and effect on the interface are those decided from the rows of its own tenant; the next revision |
| Deployments.DeleteClientDeployment | src/g_one/api.py:417-432 | its committed state, response and effect on the interface are those decided from the rows of its own tenant; disabled under the next revision |
| Deployments.DownloadClientDeployment | src/g_one/api.py:436-542 | its committed state, response and effect on the interface are those decided from the rows of its own tenant; stores the hash of a fresh code that expires in ten minutes |
| Accounts.GrantPolicy | src/g_one/api.py:561-566 | computes, from the rows of the tenant, the grant that `AccountPolicies.GrantIsSound` characterises, or refuses |
| AccountPolicies.GrantIsSound | src/g_one/api.py:561-566 | whatever is asked for: a granted address lies in the tenant's network and is accepted again unchanged, granted routes are none or a fixed point of normalization, and granted roles are those asked for, known and strictly sorted |
| AccountPolicies.GrantKeepsAddress | src/g_one/api.py:563 | an accepted request is granted an address if and only if it asks for one and the tenant has a network |
| AccountPolicies.ReachableUsersAreSound | src/g_one/api.py:558-630 | in every reachable state each user has a canonical address or none, no routes or normalized ones, and known sorted roles |
| Accounts.CreateWorkspaceUser | src/g_one/api.py:558-575 | its committed state, response and effect on the interface are those decided from the rows of its own tenant; a subject in use rolls back with 409 |
| Accounts.RemoveTarget | src/g_one/api.py:596-605 | the loop over the profiles, in whatever order rows come, leaves exactly the cascaded table |
| Accounts.DeleteWorkspaceUser | src/g_one/api.py:579-608 | its committed state, response and effect on the interface are those decided from the rows of its own tenant; row, cascade and event in one commit |
| Accounts.UpdateWorkspaceUser | src/g_one/api.py:612-630 | its committed state, response and effect on the interface are those decided from the rows of its own tenant; the next policy version under the same subject |
| Clients.ChooseProfile | src/g_one/api.py:661-699 | the profile by code or the latest assigned one; the only change is the activation of an unused, unexpired code of the caller |
| Clients.LatestIsFirst | src/g_one/api.py:689-699 | no assigned profile comes before the chosen one in the order latest update, then name |
| Clients.RotatePeer | src/g_one/api.py:713-728 | the peer at the address, or a new one, takes the fresh key and is enabled; a key in use fails |
| Clients.FindOrAddDevice | src/g_one/api.py:648-658 | the caller's usable device of that name, or a new row in the table |
| Clients.ListShares | src/g_one/api.py:738-748 | the nested loops over servers and shares, in the engine's row order, give the names and UNC paths that `Clients.DeliveredShares` characterises |
| Clients.DeliveredShares | src/g_one/api.py:738-748 | a share is delivered if and only if it is a share of an enabled file server of the tenant that the profile names |
| Clients.AnswerBootstrap | src/g_one/api.py:735-756 | the answer computed from the rows: user, network, shares of the profile and client text, or an error where the network cannot be described |
| Clients.BootstrapUser | src/g_one/api.py:648-756 | for an active user: device, code activation, peer and event in one commit, after the configuration is applied; a refusal rolls all back |
| Clients.BootstrapClient | src/g_one/api.py:634-756 | its committed state, response and effect on the interface are those decided from the rows of its own tenant |
| Clients.EnrollClientVpn | src/g_one/api.py:760-810 | its committed state, response and effect on the interface are those decided from the rows of its own tenant; nothing is committed unless the configuration is applied |
| Support.CreateDevice | src/g_one/api.py:859-865 | its committed state, response and effect on the interface are those decided from the rows of its own tenant |
| Support.DeleteDevice | src/g_one/api.py:877-889 | its committed state, response and effect on the interface are those decided from the rows of its own tenant; revoking twice changes nothing |
| Support.CreateSupportRequest | src/g_one/api.py:897-929 | its committed state, response and effect on the interface are those decided from the rows of its own tenant; pending until the requested lifetime has passed |
| Support.DecideSupportRequest | src/g_one/api.py:956-981 | its committed state, response and effect on the interface are those decided from the rows of its own tenant; an overdue decision commits the expiry and answers 410 |
| Support.EndSupportRequest | src/g_one/api.py:985-1001 | its committed state, response and effect on the interface are those decided from the rows of its own tenant |
| Vpn.SyncSession | src/g_one/api.py:1034-1049 | the peers of the tenant's network are rendered and applied; a failed write leaves the interface alone, a failed start leaves it down |
| Vpn.ConfigureVpnNetwork | src/g_one/api.py:1053-1080 | its committed state, response and effect on the interface are those decided from the rows of its own tenant; the tenant's one network is updated or created |
| Vpn.CreateVpnPeer | src/g_one/api.py:1103-1144 | its committed state, response and effect on the interface are those decided from the rows of its own tenant; a key or address in use rolls back with 409 |
| Vpn.UpdateVpnPeerRoutes | src/g_one/api.py:1148-1176 | its committed state, response and effect on the interface are those decided from the rows of its own tenant |
| Vpn.RevokeVpnPeer | src/g_one/api.py:1180-1198 | its committed state, response and effect on the interface are those decided from the rows of its own tenant; the peer stays, disabled |
| Endpoints.Handle | src/g_one/api.py:77-1198 | any modelled request served on a clean session takes exactly the step of the state machine, and leaves the session clean |
| Endpoints.Serve | src/g_one/api.py:77-1198 | any sequence of requests on one session ends in the state of the run |
| ControlPlane.RequestsAreDispatched | src/g_one/api.py:104-1198 | each request is answered by the endpoints of its kind |
| AccountEffects.SignedInAs | src/g_one/api.py:136-157 | sign-in is for the active account of the tenant with that subject and password, with its subject and exactly its roles, and adds one event; all others are refused with 401 and change nothing |
| AccountEffects.SetUpAs | src/g_one/api.py:104-132 | the first setup stores one administrator with that role alone, signs them in and sets the flag; afterwards, or with a subject in use, it is refused with 409 |
| AccountEffects.CreatedUser | src/g_one/api.py:558-575 | when a user is created, and the whole new state: the row with the granted policy and the hashed password, and one event; each refusal by its status |
| AccountEffects.UpdatedAccount | src/g_one/api.py:612-630 | when an account is updated, and the whole new state: subject kept, next policy version, password changed only if a new one is given |
| AccountEffects.DeletedUser | src/g_one/api.py:579-608 | when an account is deleted, and the whole new state: the row is gone, and of all profiles exactly the tenant's enabled ones that name it lose that target under their next revision, disabled if and only if no other target is left |
| FileServerEffects.CreatedServer | src/g_one/api.py:252-273 | when a file server is created, and the whole new state: host in lower case, distinct sorted shares, enabled |
| FileServerEffects.UpdatedServer | src/g_one/api.py:277-302 | when a file server is updated, and the whole new state |
| FileServerEffects.DisabledServer | src/g_one/api.py:306-320 | when a file server is deleted: the row stays and is disabled, nothing else of it changes |
| DeploymentEffects.ValidatesExactly | src/g_one/api.py:201-238 | a body is accepted if and only if its network is enabled, each named file server is enabled, each target is an active user, all of the tenant, neither list is empty and the routes can be normalized |
| DeploymentEffects.CreatedProfile | src/g_one/api.py:343-375 | when a profile is created, and the whole new state, under revision 1 |
| DeploymentEffects.UpdatedProfile | src/g_one/api.py:379-413 | when a profile is updated, and the whole new state, under the next revision |
| DeploymentEffects.DisabledProfile | src/g_one/api.py:417-432 | when a profile is deleted: the row stays, disabled under the next revision with its content |
| DeploymentEffects.DownloadedBundle | src/g_one/api.py:436-542 | a bundle is for a target, or for an administrator on a target's behalf; its code is stored by hash, for the target and the profile, for ten minutes; the bundle has exactly the enabled servers that the profile names |
| SupportEffects.RegisteredDevice | src/g_one/api.py:859-865 | the device is stored as the caller's, with one event |
| SupportEffects.RevokedDevice | src/g_one/api.py:877-889 | the owner or an administrator revokes a device, once; the whole new state |
| SupportEffects.RequestedSession | src/g_one/api.py:897-929 | support staff or administrators ask for a registered device; the request is pending until now plus the lifetime; the whole new state |
| SupportEffects.DecidedRequest | src/g_one/api.py:956-981 | who may decide what, and the whole new state for acceptance, denial and expiry |
| SupportEffects.EndedSession | src/g_one/api.py:985-1001 | who may end what, and the whole new state |
| VpnEffects.ConfiguredNetwork | src/g_one/api.py:1053-1080 | when a network is configured, and the whole new state once it is applied; being enabled stays as it was |
| VpnEffects.CreatedPeer | src/g_one/api.py:1103-1144 | when a peer is created, with which key, address and routes, the whole new state once it is applied, and when and with what a client text is handed out |
| VpnEffects.ChangedRoutes | src/g_one/api.py:1148-1176 | the routes of a peer change once applied, and nothing else of it |
| VpnEffects.RevokedPeer | src/g_one/api.py:1180-1198 | a revoked peer is disabled from now on once applied; nothing else of it and no other peer changes |
| VpnEffects.FailedApplyShows | src/g_one/api.py:1044-1049 | a configuration that is not applied changes nothing stored; a failed write leaves the interface alone, a failed start leaves it down |
| AcceptedPeers.InterfaceAfterFailure | src/g_one/api.py:1044-1049 | so the interface keeps its text after a failed write and is gone after a failed start |
| Revocation.RevokedPeerIsGone | src/g_one/api.py:1180-1198 | after any history a successful revocation leaves that row disabled, all other peers as they were and the interface up; with quiet names its text has no section with the key or the address of the revoked peer |
| ClientEffects.EnrolledClient | src/g_one/api.py:760-810 | when an enrollment is accepted, and the whole new state once it is applied: the user's peer at the address or a new one, with the fresh key and the user's routes |
| BootstrapEffects.LoggedInClient | src/g_one/api.py:634-756 | without a code, the latest profile assigned to the user is delivered, or none where none is assigned; device, peer, event and answer, each determined by the stored rows |
| BootstrapEffects.CodedClient | src/g_one/api.py:634-756 | with a code, the profile of the caller's own code is delivered and a first use recorded; refused with 403, 410 or 409 for a code of somebody else, an expired unused one, or an unassigned profile |
| BootstrapEffects.NobodyBootstraps | src/g_one/api.py:641-647 | only an active user of the tenant is served |
| BootstrapEffects.DeliveredRoutes | src/g_one/api.py:709-731 | the routes of the stored peer, and those read from the text that is handed out, are the profile's, normalized; without a profile the user's own, or the network's block where the user has none |
| ClientEffects.ReachableIsSettled | src/g_one/models.py:72-171 | every reachable state meets the hypotheses of these theorems |
| Tables.TenantStepIsInvisible | src/g_one/api.py:201-238 | changes to one tenant's rows and events leave the view of every other tenant as it was |
| ControlPlane.StaysInTenant | src/g_one/api.py:104-1198 | every request changes rows and appends events of its own tenant only |
| ControlPlane.DependsOnView | src/g_one/api.py:104-1198 | on any two states that agree on its tenant's rows, log and the setup flag, a request has the same answer and interface effect and leaves agreeing states |
| ControlPlane.NonInterference | src/g_one/api.py:104-1198 | the induction over runs, for any two starting states that agree on the tenant and runs in which no other tenant claims the installation |
| ControlPlane.TenantsDoNotInterfere | src/g_one/api.py:104-1198 | erasing all requests of other tenants from a run leaves the tenant's rows, log and answers unchanged, as long as none of them claims the installation |
| ControlPlane.ClaimedOrOwnSetUps | src/g_one/api.py:104-132 | others claim nothing where the installation is claimed at the start, or where only the tenant itself asks for setup |
| SupportLog.SupportKeepsLog | src/g_one/api.py:897-1001 | every support endpoint keeps rows and log in agreement, the expiry that answers an error included |
| SupportLog.LogDeterminesState | src/g_one/api.py:897-1001 | the events of a request are exactly [requested] or one of its four continuations, the one its state names |
| SupportRuns.StepKeepsLog | src/g_one/api.py:173-184 | every request of any kind keeps the agreement |
| SupportRuns.LogDeterminesEveryState | src/g_one/api.py:173-1001 | in every reachable state: the events of each support request are the lifecycle of its state, requested by the requester, decided by the device owner, ended by one of the two; acceptance and denial come before the expiry, and the times in the row are those of the events |
| ProfileIntegrity.EveryServerFound | src/g_one/api.py:215-225 | as many rows as distinct references: every reference has its row |
| ProfileIntegrity.EveryUserFound | src/g_one/api.py:226-235 | the same for subjects, through their uniqueness within the tenant |
| ProfileIntegrity.ValidatedIsSound | src/g_one/api.py:201-238 | what validation accepts has targets, servers and network that exist in the tenant, and normalized routes |
| ProfileIntegrity.RemovedUserKeepsIntegrity | src/g_one/api.py:579-608 | deleting a user leaves no enabled profile that names a missing user or nobody |
| ProfileIntegrity.NetworksStayUnique | src/g_one/api.py:1066-1070 | a tenant never gets a second network |
| ProfileIntegrity.StepKeepsIntegrity | src/g_one/api.py:104-1198 | every request keeps unique subjects, single networks and sound profiles |
| ProfileIntegrity.ReachableProfilesAreSound | src/g_one/api.py:343-432 | in every reachable state each enabled profile has a non-empty strictly sorted list of existing targets, servers of its tenant, fixed-point routes, and the tenant's only network |
| ProfileIntegrity.BootstrapFindsTheProfilesNetwork | src/g_one/api.py:704 | the network found by tenant alone is the one the profile names, in every reachable state |
| UniqueRows.StepKeepsUnique | src/g_one/api.py:252-1198 | every request keeps names of file servers and profiles unique within a tenant, keys and addresses of peers within a network, and hashes of codes throughout |
| UniqueRows.ReachableRowsAreUnique | src/g_one/models.py:122-171 | so in every reachable state the checks of the endpoints amount to these unique constraints, disabled and revoked rows included |
| Revisions.StepVersions | src/g_one/api.py:396-605 | every request leaves each profile as it was or gives an enabled one a greater revision |
| Revisions.RevisionIsAVersion | src/g_one/api.py:379-608 | at any two points of a run: same profile and revision mean same content, revisions never decrease, and a disabled profile never changes again |
| EnrollmentCodes.StepOnCodes | src/g_one/api.py:468-684 | a request creates a code, or activates an unused one before its expiry for its own user, or leaves all codes alone |
| EnrollmentCodes.UsedAtIsSetOnce | src/g_one/api.py:676-680 | over a run the time of use is set at most once and nothing else of a code ever changes |
| EnrollmentCodes.CodesHaveHistories | src/g_one/api.py:468-684 | every code of a reachable state was issued by a download exactly ten minutes before its expiry, and if used was activated in time by a successful bootstrap of its user |
| EnrollmentCodes.EverySuccessIsCovered | src/g_one/api.py:661-735 | every successful bootstrap with a code happens before the code's expiry or is preceded by a successful one with the same code, tenant and subject that did |
| EnrollmentCodes.FailedAttemptsLeaveCodes | src/g_one/api.py:661-756 | in every reachable state and for every server key, a bootstrap that fails leaves every code unchanged, although the network is described after the commit |
| ServerKey.ReachableIsDescribable | src/g_one/api.py:735-756 | the reason: with a key that is set but unusable no network, profile or code is ever stored, because a configuration is applied before it is committed |
| Refusals.RefusedRequestsChangeNothing | src/g_one/api.py:104-1198 | in every reachable state a refused request of any kind leaves the database as it was, unless it is an owner's overdue decision |
| Refusals.OverdueDecision | src/g_one/api.py:972-976 | an overdue decision is answered 410 and commits the expiry with its event, and nothing else |
| Administration.OnlyAdministratorsManage | src/g_one/api.py:241-632 | without the administrator role no request changes users, file servers, networks or profiles |
| Administration.SignedInIff | src/g_one/api.py:136-157 | somebody is signed in if and only if the tenant has an active user with that subject and password |
| Administration.UpdateTakesTheLastAdministrator | src/g_one/api.py:612-630 | a run of two requests, setup and then an update of that account without roles: the tenant has an administrator in between and none at the end |
| Administration.LastAdministratorLostIff | src/g_one/api.py:579-630 | a tenant with an active administrator loses the last one exactly by an accepted update that takes role or account from the only one; no deletion and no other request of any tenant does |
| Runtime.RestoreWireguard | src/g_one/main.py:17-30 | a restart renders the most recently updated network with its peers and applies it |
| Runtime.LatestIsLatest | src/g_one/main.py:21-23 | no stored network was updated after the one that a restart chooses |
| Runtime.AppliedReads | src/g_one/wireguard.py:54-78 | the text rendered from stored rows reads as exactly these rows if and only if the names of the network's enabled peers are quiet, and then it agrees: the stored interface with its enabled peers, one each |
| Runtime.RequestKeepsStep | src/g_one/api.py:1034-1198 | every request of any tenant, with names of any kind, changes networks or peers only together with the applied text, which is rendered from the new rows of the caller's network |
| Runtime.RestartAgrees | src/g_one/main.py:17-30 | a restart brings the interface up exactly if a network is stored and applying succeeds, and then with the text of the network updated last |
| Runtime.InterfaceAgreesWithDatabase | src/g_one/api.py:1034-1198 | usable key, applying on, any tenants: at any point of any history of requests, failures and restarts, an interface that is up runs with a text that reads as exactly the current rows of some one tenant's network if and only if the names of its enabled peers are quiet, and then it agrees with them |
| Runtime.OneTenantAgrees | src/g_one/api.py:1034-1198 | with one tenant that network is the only one and its peers are all stored peers |
| Runtime.CommittedChangesAreRunning | src/g_one/api.py:1076-1198 | after a committed change of network or peers the interface is up with the text of the caller's network, and after a restart that applies with that of the network updated last |
| AcceptedPeers.LoudRequestDisagrees | src/g_one/api.py:1103-1144 | after any history, an administrator's first peer with a name that adds one is accepted, and the interface then runs with a peer that is no row |
| Runtime.LoudNameDisagrees | src/g_one/wireguard.py:73-77 | the text applied for one stored peer of such a name does not agree with the database |
| ExampleHistory.LoudHistory | src/g_one/api.py:104-1144 | such a history exists: setup, a network and a peer whose name has at most 128 characters, every request accepted |
| ExampleHistory.CutEndpointHistory | src/g_one/api.py:1053-1144 | setup, a network with the endpoint `vpn#a` and a peer: the configuration that is handed out is read with the endpoint `vpn` |
| Handshake.ClientFitsServer | src/g_one/api.py:704-1144 | whenever a request hands out a configuration (bootstrap, enrollment, a created peer), after any history of any tenants, both texts speak of the caller's stored network and of one stored peer: the client's names the server's public key, its endpoint and port, and the routes of the peer, and the running text has the private key, the same port, and that peer with the client's public key and address |

## Left out

- IPv6 addresses, networks and scope ids: the library's text forms; IPv4 carries the argument, and a value that only parses as IPv6 is refused by the model.
- The theorem that the ladder computes u([n]B) in the curve group: it needs associativity of the group; the multiple is the recursive one, with the local doubling and addition laws.
- CurveLaws.AdditionLaw: leaves out equal u-coordinates and points at infinity, where the construction has no chord.
- HMAC-SHA256, SHA-256, PBKDF2 and random generation: uninterpreted functions and step inputs; `src/g_one/passwords.py` is not modelled.
- Token.AcceptedTokensAreSigned: says nothing of unforgeability, which is a property of the keyed hash.
- JSON beyond the objects the tokens use: no nested values, floats, white space, lone surrogates or raw non-ASCII bytes; the reader refuses them where the library may accept them.
- `exp` claims that are floats or booleans, and base64 text with characters outside the alphabet in a signature that happens to decode alike.
- Lower-casing of host names is modelled for ASCII letters only.
- Line terminators other than the line feed in settings files; file permissions, temporary files and the atomic replacement of a file.
- SQL modes of the database server other than the default one, in which backslash escapes in literals.
- The configuration is fixed for a run: changing settings, such as the server key, between two starts is not modelled.
- PeerNames.RenderedSectionsIff: the reader is a section-by-section reader of key and value lines that ignores lines without an equals sign; it is not `wg-quick`.
- Races between read and write of endpoints under weak isolation: each request is one atomic transaction, except first-run setup.
- Setup.OneAdministrator: the database is a single lockable row with commit and rollback; other isolation anomalies are not modelled.
- The database's collation, truncation of times to whole seconds, and column widths other than the one of route lists.
- Details stored with audit events, row creation times, listing endpoints, the console session, API tokens, health checks and role listings.
- Request validation by the schema library, HTTP routing, the ZIP bundle with its PowerShell script, the web console and the Windows client.
- Migrations, Docker, port probing, process control and credential recovery; `wg-quick` is abstracted to: the last applied text, a write that fails, or a start that fails.
- Responses carry rows rather than their JSON rendering; the server key and route shown with a network are functions of the configuration and the row.
- The conversion of clock readings between time zones.
