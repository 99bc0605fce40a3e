# Hyper-V provider core: Negotiate transports, VM rules, disk plan

This project models the core of the Terraform provider for the Hyper-V management API in Dafny. It covers four parts:

- **The Negotiate transport** (`sspiNegTransport`). It makes a request body replayable and sends the request once. On a 401 that offers `Negotiate` it builds the service principal name (SPN), acquires SSPI credentials and a client context, and runs at most five handshake legs, so the base transport is called up to six times (`NegotiateFacts.ExchangeExhausted`). Each leg is a fresh copy of the request that carries `Authorization: Negotiate <base64 token>`, and it reads the token of a 401 answer as line 127 of `internal/client/negotiate_windows.go` is written (see Findings). Context and credentials are released in reverse order.
- **The impersonating transport** (`impersonateTransport`). It splits `DOMAIN\user` once, at construction. On every round trip it:
  1. pins the OS thread;
  2. logs the user on, interactively first and with new credentials second;
  3. impersonates the token and hands the request to a fresh Negotiate transport;
  4. reverts, closes the token and unpins the thread.
- **The VM resource rules.** These cover:
  - `toMB` size parsing, with Go's `strconv.Atoi`, 64-bit wrap-around and truncating division;
  - the choice of the OS disk and of the new VHD's path and size;
  - the attach parameters and the generation;
  - the delete options, the power transition and its timeouts, and the power-state match;
  - the "not found" heuristic of Read and Delete.
- **The `hypervapiv2_disk_plan` data source.** It asks the server for a plan. When that fails it builds a fallback plan from the roots of the effective policy, and then it stores the state.

Calls that leave the process are oracles of the `Platform.Host` class. These are the base HTTP transport, SSPI, `LogonUserW`, `ImpersonateLoggedOnUser`, `RevertToSelf`, the token and the thread lock. Their answers are fixed in advance (a script for the repeated calls), and every call is appended to one event log. A transport method is proved to return what a pure function (`Negotiate.Exchange`, `Impersonate.Impersonation`) gives, and to leave the log that function describes. The facts modules then prove what the source promises about those functions.

The Terraform API calls of the VM resource and the disk-plan data source are passed in as what they answered, and `filepath.Join` is passed in as a function.

## Model

| member | source | states |
|---|---|---|
| Negotiate.CacheBody | internal/client/negotiate_windows.go:29-40 | A body without `GetBody` is read exactly once and closed. It is replaced by a fresh, unread stream over the same bytes, `GetBody` then supplies those bytes, and the content length becomes their count. A request that already has `GetBody` is left untouched. |
| Negotiate.ScanChallenge | internal/client/negotiate_windows.go:51-66 | Negotiate is offered iff some trimmed `Www-Authenticate` value starts with "negotiate" in any case. The initial token is the one the first such value carries. |
| Negotiate.FirstChallengeIsFirst | internal/client/negotiate_windows.go:53-65 | The challenge the scan picks is an offering value, and no value before it offers the scheme. |
| Negotiate.ScanServerToken | internal/client/negotiate_windows.go:123-134 | A leg's scan returns the token of the first challenge starting with "negotiate " in any case, and nothing when none is offered. As line 127 is written, the scheme is removed only when spelled exactly `Negotiate `. |
| Negotiate.FirstChallenge | internal/client/negotiate_windows.go:53-65 | The value the scan picks is one of the header's values and offers the scheme. |
| Negotiate.ChallengeToken | internal/client/negotiate_windows.go:57-62 | A token is read only from a challenge that holds a space. |
| Negotiate.InitialToken | internal/client/negotiate_windows.go:51-63 | A non-empty initial token comes from the first Negotiate challenge, and that challenge holds a space. |
| Negotiate.ServerTokenAsWritten | internal/client/negotiate_windows.go:123-134 | As written, a leg reads a token only from a challenge that offers "negotiate ". |
| Negotiate.ServerToken | internal/client/negotiate_windows.go:123-134 | The corrected reading also takes a token only from a challenge that offers "negotiate ". |
| Negotiate.LegServerToken | internal/client/negotiate_windows.go:123-134 | The token a leg's 401 carries, read as line 127 is written, is empty unless some `Www-Authenticate` value offers "negotiate ". |
| Negotiate.ServicePrincipalName | internal/client/negotiate_windows.go:75-81 | The SPN is `HTTP/` followed by the request host. For a loopback host (`localhost`, `127.0.0.1`, `::1`) the machine name replaces it when that lookup succeeds with a non-empty name. |
| Negotiate.Exchange | internal/client/negotiate_windows.go:42-49 | The first call sends the request as it came. A transport error or a non-401 answer is returned at once, after that single call. |
| Negotiate.Challenged | internal/client/negotiate_windows.go:67-69 | A 401 that offers no Negotiate challenge is returned as it came, and nothing more is called. |
| Negotiate.Negotiation | internal/client/negotiate_windows.go:75-145 | Failed credentials return their error after the acquisition alone. A failed context returns its error after acquisition, creation and the credentials' release, with nothing sent. Once credentials were acquired, their release is the last call. |
| Negotiate.LegStep | internal/client/negotiate_windows.go:96-143 | One leg as a value, with no contract of its own. `NegotiateFacts.LegStepOpens`, `LegStepAnswers`, `LegStepTally` and `LegStepGoesOn` state what it does. |
| Negotiate.Legs | internal/client/negotiate_windows.go:93-145 | The legs from leg `i` on, at most five in all, with no contract of its own. `NegotiateFacts.LegsAnswer`, `LegsTally` and `LegsExhausted` state what they do. |
| Negotiate.LegsFrom | internal/client/negotiate_windows.go:95-144 | One leg and then the rest, as a value with no contract of its own. `Negotiate.LegsUnfold` ties it to `Legs`. |
| Negotiate.After | internal/client/negotiate_windows.go:119-144 | What follows a leg: stop, or hand the drained 401 on to the next leg. It has no contract of its own. `NegotiateFacts.AfterAnswers` states what it does. |
| Negotiate.NegotiationLegs | internal/client/negotiate_windows.go:82-145 | With credentials and a context, the calls are those of the legs followed by the context's release and then the credentials' release. |
| Negotiate.LegsUnfold | internal/client/negotiate_windows.go:95-144 | The handshake from leg `i` on is leg `i`, followed by the legs after it when leg `i` goes on. |
| Negotiate.LegsPrefix | internal/client/negotiate_windows.go:95-144 | The calls made before the handshake only prefix its record. |
| Negotiate.CloneForLeg | internal/client/negotiate_windows.go:107-113 | A leg's request is a fresh object: the caller's host, a body from `GetBody` and a copied header map whose `Authorization` holds only `Negotiate <token>`. |
| Negotiate.NegotiateTransport.constructor | internal/client/negotiate_windows.go:19-21 | The transport wraps the given base transport. |
| Negotiate.NegotiateTransport.Leg | internal/client/negotiate_windows.go:96-143 | One leg's calls, its result, and the token and drained 401 it passes on are exactly those of `LegStep`, with the 401 read as line 127 is written. |
| Negotiate.NegotiateTransport.NextLeg | internal/client/negotiate_windows.go:95-144 | After one leg, either the loop's result is final or the rest of `Legs` is still owed. |
| Negotiate.NegotiateTransport.Handshake | internal/client/negotiate_windows.go:93-145 | The loop of at most five legs returns and logs exactly what `Legs` describes. |
| Negotiate.NegotiateTransport.Authenticate | internal/client/negotiate_windows.go:75-145 | SPN, credentials, context, legs and releases return and log exactly what `Negotiation` describes. |
| Negotiate.NegotiateTransport.RoundTrip | internal/client/negotiate_windows.go:27-146 | Leaves the request's headers and host alone and returns and logs what `Exchange` describes. A body without `GetBody` is read once and closed, and replaced by a fresh stream over its bytes, whose count becomes the content length. Otherwise the body stays the caller's stream and the content length is kept. Either way the stream the request ends up with was consumed and closed by the first send (line 43). |
| Negotiate.NegotiateTransport.Exchanged | internal/client/negotiate_windows.go:43-145 | On a replayable request, it returns and logs what `Exchange` describes. The request's own body is consumed once, by the first send, and closed. Every leg sends a fresh stream instead. |
| Negotiate.NegotiateTransport.Challenge | internal/client/negotiate_windows.go:51-145 | After a first 401, it returns and logs what `Challenged` describes. |
| Http.CloneHeader | internal/client/negotiate_windows.go:148-156 | The copy made entry by entry equals the original header map. |
| Http.SetHeader | internal/client/negotiate_windows.go:113 | `Header.Set` gives the name the single new value and keeps every other entry. |
| Http.Drained | internal/client/negotiate_windows.go:135-137 | Draining keeps status and headers, empties the body and closes it. |
| Base64.DecodeEncode | internal/client/negotiate_windows.go:113-128 | Decoding what a leg encodes gives back the token. |
| Base64.EncodeHasNoSpace | internal/client/negotiate_windows.go:127 | An encoded token holds no white space, so trimming leaves it whole. |
| NegotiateFacts.LegStepTally | internal/client/negotiate_windows.go:96-121 | A leg calls the base transport at most once and `Update` at most once, never on leg 0. A leg that goes on, and leg 0, always sends. |
| NegotiateFacts.LegsTally | internal/client/negotiate_windows.go:95-144 | From leg `i` on there are at most `5 - i` sends and the matching bound on updates. The log holds one `Sent` per send and one `ContextUpdate` per update. |
| NegotiateFacts.ExchangeTally | internal/client/negotiate_windows.go:27-146 | A round trip calls the base transport between one and six times and `Update` at most four times, and the log counts match. |
| NegotiateFacts.ChallengedTally | internal/client/negotiate_windows.go:51-145 | After the first 401, at most five sends and four updates follow. |
| NegotiateFacts.NegotiationTally | internal/client/negotiate_windows.go:82-145 | The same bounds after a Negotiate challenge, on every path, failed acquisitions included. |
| NegotiateFacts.NegotiationLegsTally | internal/client/negotiate_windows.go:87-145 | The bounds when credentials and the context were obtained. |
| NegotiateFacts.ExchangeAnswersLast | internal/client/negotiate_windows.go:43-145 | A response the round trip returns is the answer to its last base-transport call, as delivered or drained. Every earlier call was answered 401, so the first other answer is returned at once. An error returned is the error of the last send or the last `Update`, or, after a single 401, that of the credentials or the context. |
| NegotiateFacts.ExchangeChallengedAnswers | internal/client/negotiate_windows.go:43-145 | The same when the first send came back 401. |
| NegotiateFacts.ChallengedAnswers | internal/client/negotiate_windows.go:51-145 | The same from the challenge scan on. |
| NegotiateFacts.NegotiationAnswers | internal/client/negotiate_windows.go:75-145 | After the challenge, the response returned answers the last send and every earlier send was answered 401. With credentials and a context, an error is that of the last send or `Update`. |
| NegotiateFacts.LegsAnswer | internal/client/negotiate_windows.go:96-145 | From any leg on, the response returned answers the last send and every earlier send was answered 401. An error is that of the last send or `Update` (lines 101-104, 115-118). |
| NegotiateFacts.AfterAnswers | internal/client/negotiate_windows.go:96-145 | The same once a leg has ended. |
| NegotiateFacts.LegStepAnswers | internal/client/negotiate_windows.go:96-141 | A leg sends at most once. Its result, or the 401 it passes on, answers its own send. A leg goes on only after a 401, and it fails with the error of its own send or its own `Update`. |
| NegotiateFacts.WithTokenIsLegCopy | internal/client/negotiate_windows.go:107-113 | A leg's copy has the caller's host, body and headers, apart from a single `Authorization` value that starts with `Negotiate `. |
| NegotiateFacts.LegsTraffic | internal/client/negotiate_windows.go:95-144 | The legs make only context updates and sends of leg copies. |
| NegotiateFacts.NegotiationOrder | internal/client/negotiate_windows.go:82-145 | Credentials are acquired first and the context created second. The context is released before the credentials on every path, and only leg traffic happens in between. A failed acquisition releases nothing, and a failed context releases the credentials alone. |
| NegotiateFacts.LegStepOpens | internal/client/negotiate_windows.go:96-113 | Leg 0 starts by sending the initial token. A later leg starts with `Update` on its input and then sends what `Update` returned. |
| NegotiateFacts.LegTokens | internal/client/negotiate_windows.go:95-113 | In the log of the whole handshake, leg 0 sends the context's initial token without `Update`. A later leg first feeds its token to `Update` and then sends the token `Update` produced. |
| NegotiateFacts.ServerTokenFeedsNextLeg | internal/client/negotiate_windows.go:122-143 | A leg that goes on hands the token read from its 401 to the next leg, whose first call is `Update` on that token. |
| NegotiateFacts.ChallengeTokenUnused | internal/client/negotiate_windows.go:52-63 | The token of the first 401's challenge never reaches the context: the round trip is the same whatever it is. |
| NegotiateFacts.FirstLegGoesOnAfter401 | internal/client/negotiate_windows.go:96-99 | Leg 0 never stops on a 401. |
| NegotiateFacts.DoneWithoutTokenStops | internal/client/negotiate_windows.go:139-141 | A later leg whose context is done and whose 401 has no token ends the round trip with that 401, drained. |
| NegotiateFacts.LegStepGoesOn | internal/client/negotiate_windows.go:119-143 | A 401 on a leg whose update was not final continues the loop with that 401 drained. |
| NegotiateFacts.LegsExhausted | internal/client/negotiate_windows.go:95-145 | When every answer is a 401 and no update is final, all remaining legs run and the last 401, drained, is returned. |
| NegotiateFacts.ExchangeExhausted | internal/client/negotiate_windows.go:43-145 | With a Negotiate 401 and 401s ever after, the round trip makes six sends and four updates and returns the sixth answer, drained. |
| NegotiateFacts.SchemeThenToken | internal/client/negotiate_windows.go:124-126 | "negotiate " in any case, followed by a base64 token, is accepted by a leg's scan, and the token text follows the scheme. |
| NegotiateFacts.ServerTokenRecovers | internal/client/negotiate_windows.go:122-134 | With the scheme stripped in any case, a leg recovers exactly the token the server sent. |
| NegotiateFacts.ServerTokenAsWrittenCanonical | internal/client/negotiate_windows.go:122-134 | As written, the leg recovers the token when the server spells the scheme `Negotiate `. |
| NegotiateFacts.AsWrittenKeepsScheme | internal/client/negotiate_windows.go:127 | As written, a lower-case scheme is not stripped: the whole value is decoded. |
| NegotiateFacts.DecodeLowercaseScheme | internal/client/negotiate_windows.go:128 | Decoding a value that starts with "negotiate " yields a first byte of 157, whatever follows. |
| NegotiateFacts.LowercaseSchemeGarbles | internal/client/negotiate_windows.go:126-128 | For a lower-case scheme, the corrected reading recovers the token, while as written the leg sends bytes starting with 157. |
| NegotiateFacts.EncodeQUJD | internal/client/negotiate_windows.go:113 | The token [65, 66, 67] travels as "QUJD", the text of the Findings example. |
| Platform.Host.Send | internal/client/negotiate_windows.go:43 | The base transport answers with the script's next outcome and records the request as it was handed over. It consumes the body stream and closes it, as every `http.RoundTripper` does. |
| Platform.DomainArgument | internal/client/negotiate_impersonate_windows.go:80-81 | An empty domain is passed to `LogonUserW` as a nil pointer, and any other domain as a string. |
| Impersonate.SplitDomainUser | internal/client/negotiate_impersonate_windows.go:62-68 | The domain is non-empty iff the name has a backslash that is not its first character. The name then splits at its first backslash, the domain holds no backslash, and domain, backslash and user rebuild the name. Otherwise the whole name is the user. |
| Impersonate.SplitJoin | internal/client/negotiate_impersonate_windows.go:62-68 | Splitting `domain\user` gives back the domain and the user, even when the user holds backslashes. |
| Impersonate.LeadingBackslashStaysInUser | internal/client/negotiate_impersonate_windows.go:64 | A name starting with a backslash is kept whole as the user of the empty domain. |
| Impersonate.Logons | internal/client/negotiate_impersonate_windows.go:39-46 | The interactive logon is always tried first. The new-credentials one is tried iff the first failed. An error remains iff both failed, and it is then the second one's. |
| Impersonate.Impersonation | internal/client/negotiate_impersonate_windows.go:30-60 | When the request is not delegated, because no logon or the impersonation failed, an error is returned and nothing is sent or updated. |
| Impersonate.Impersonated | internal/client/negotiate_impersonate_windows.go:50-59 | A refused impersonation returns its error after only the attempt and the token's close. |
| Impersonate.ImpersonateTransport.constructor | internal/client/negotiate_impersonate_windows.go:18-21 | Domain and user come from splitting the account name, and the password is kept. |
| Impersonate.ImpersonateTransport.LockAndLogOn | internal/client/negotiate_impersonate_windows.go:39-46 | The thread is locked, the interactive logon is tried, and the new-credentials logon is tried only if the first failed. The remaining error is returned. |
| Impersonate.ImpersonateTransport.RoundTrip | internal/client/negotiate_impersonate_windows.go:30-60 | Returns and logs exactly what `Impersonation` describes. When the Negotiate transport is reached, the body is cached as it does there, and the stream the request ends up with is consumed and closed by the first send. When it is not reached, body and content length are untouched. |
| Impersonate.ImpersonateTransport.Impersonating | internal/client/negotiate_impersonate_windows.go:50-59 | Once a token exists, it returns and logs what `Impersonated` describes. The body is cached and consumed only when the impersonation succeeded, and untouched otherwise. |
| Impersonate.ImpersonateTransport.Delegate | internal/client/negotiate_impersonate_windows.go:58-59 | A fresh Negotiate transport over the same platform carries the request, as `Exchange` describes. It caches the body, and consumes the request's stream, as that transport does. |
| ImpersonateFacts.LogonAttempts | internal/client/negotiate_impersonate_windows.go:39-46 | One or two logons come right after the lock. The interactive one is first, and the new-credentials one only follows its failure. Both use the domain, user and password fixed at construction. |
| ImpersonateFacts.LogonFailureStops | internal/client/negotiate_impersonate_windows.go:47-49 | When both logons fail, the second error is returned after the unlock. Nothing is impersonated and the Negotiate transport is not reached. |
| ImpersonateFacts.ImpersonationFailureClosesToken | internal/client/negotiate_impersonate_windows.go:51-54 | A failed impersonation returns its error and still closes the token and unlocks the thread. Nothing is reverted and nothing is sent. |
| ImpersonateFacts.CleanupLastInFirstOut | internal/client/negotiate_impersonate_windows.go:32-59 | On every path, the thread lock, the token and the impersonation are released in reverse order of acquisition, and Negotiate calls happen only inside all three. |
| ImpersonateFacts.CleanupWithoutToken | internal/client/negotiate_impersonate_windows.go:47-49 | The same, when no logon succeeded. |
| ImpersonateFacts.CleanupDenied | internal/client/negotiate_impersonate_windows.go:51-54 | The same, when impersonation failed. |
| ImpersonateFacts.CleanupDelegated | internal/client/negotiate_impersonate_windows.go:50-59 | The same, when the request was delegated. |
| ImpersonateFacts.ExchangeStaysInside | internal/client/negotiate_windows.go:27-146 | The Negotiate transport calls only the base transport and SSPI, never the logon, impersonation, token or thread calls. |
| ImpersonateFacts.NegotiationStaysInside | internal/client/negotiate_windows.go:75-145 | The same for the handshake part. |
| ImpersonateFacts.DelegatesRequestUnchanged | internal/client/negotiate_impersonate_windows.go:58-59 | With an impersonated token, the request goes to the Negotiate transport as it came, right after the impersonation, and its result is returned. |
| Strconv.Wrap64 | internal/resources/vm.go:547 | The result is a 64-bit `int` congruent to the input modulo 2^64, and equal to it when it fits. |
| Strconv.GoQuo | internal/resources/vm.go:216 | Go's `/` for a positive divisor truncates toward zero, bounded on both sides for either sign of the dividend. |
| Strconv.Atoi | internal/resources/vm.go:545 | A parsed value fits in 64 bits and comes from an optional sign followed by at least one decimal digit. |
| Strconv.AtoiItoa | internal/resources/vm.go:545 | `Atoi` reads back every 64-bit integer that `Itoa` writes. |
| Strconv.DecimalValue | internal/resources/vm.go:545 | The digits of a natural number read back as that number. |
| VmRules.Unit | internal/resources/vm.go:541-543 | What is left, followed by the `GB` and `MB` that were dropped, gives back the text. |
| VmRules.ToMB | internal/resources/vm.go:538-549 | A parsed size fits in a 64-bit `int`. |
| VmRules.ToMBMegabytes | internal/resources/vm.go:538-549 | A number with no unit, or with `MB` in any case after optional white space, reads as that many megabytes. |
| VmRules.ToMBGigabytes | internal/resources/vm.go:538-549 | A number with `GB` in any case reads as 1024 times it, wrapping around past 64 bits, and exactly 1024 times it when that fits. |
| VmRules.ToMBGigabytesThenMegabytes | internal/resources/vm.go:541-543 | `MB` is stripped before `GB`, so "…GBMB" reads as gigabytes. |
| VmRules.ToMBMegabytesThenGigabytes | internal/resources/vm.go:541-543 | "…MBGB" keeps `MB` before the stripped `GB` and is not a size. |
| VmRules.MemoryMB | internal/resources/vm.go:173-176 | The startup memory is set iff `memory` is non-empty and parses, and it is then the parsed size. |
| VmRules.OsDiskSizeGB | internal/resources/vm.go:201-219 | A new OS disk has a size iff its size attribute is non-empty and parses. From 1024 MB up it is the whole number of gigabytes, rounded down. Below that it is 1 GB. |
| VmRules.AttachSizeGB | internal/resources/vm.go:338-343 | An attached disk's size is set iff the attribute is non-empty and parses to at least 1024 MB. It is then the whole number of gigabytes, rounded down. |
| VmRules.SizeFloors | internal/resources/vm.go:338-343 | Where the attach size is set, the new-disk size equals it. Where a readable size gives none, it is under 1024 MB and the new disk gets 1 GB. |
| VmRules.SizeOfGigabytes | internal/resources/vm.go:201-219 | `<n>GB` with n ≥ 1 is n GB on both paths. |
| VmRules.SizeBelowAGigabyte | internal/resources/vm.go:201-219 | Under 1024 MB, the new disk gets 1 GB and the attach call gets no size. |
| VmRules.FirstOsDisk | internal/resources/vm.go:189-195 | Finds the first OS disk, boot or purpose `os` in any case, at or after a position, or reports that there is none. |
| VmRules.ChosenDisk | internal/resources/vm.go:187-196 | The chosen disk is the first OS disk, or the first disk when there is no OS disk. |
| VmRules.ChooseDisk | internal/resources/vm.go:189-196 | The selection loop picks `ChosenDisk`. |
| VmRules.PlannedVhd | internal/resources/vm.go:181-228 | The planned size is at least 1 GB and the planned path is non-empty, whenever either is set. Each comes either from the legacy `new_vhd_*` attributes or from the chosen disk. |
| VmRules.PlanNewVhd | internal/resources/vm.go:181-228 | The code's steps compute `PlannedVhd`. |
| VmRules.AttachRequest | internal/resources/vm.go:321-355 | A disk is attached after creation iff the chosen disk names a source path. The attach call carries that disk's source path, read-only only when the disk sets it true, and `AttachSizeGB` of its size. That size is set iff the size parses to at least 1024 MB, and is then at least 1. |
| VmRules.PlanAttach | internal/resources/vm.go:321-343 | The code's steps compute `AttachRequest`. |
| VmRules.AttachedDiskIsNotCreated | internal/resources/vm.go:198-228 | When the chosen disk is attached later, the new VHD is not taken from it. The values line 228 leaves are the legacy attributes, before auto-placement and cloning may replace the path. |
| VmRules.OsDiskSizeWins | internal/resources/vm.go:186-228 | A readable size on the first OS disk, neither cloned nor attached, wins over `new_vhd_size_gb`. |
| VmRules.NoDisksKeepLegacy | internal/resources/vm.go:181-187 | Without `disk` blocks, the planned path and size are the legacy ones. |
| VmRules.ClonedDiskIsNotCreated | internal/resources/vm.go:198-228 | When the chosen disk is cloned, the values line 228 leaves are the legacy attributes. Cloning may later replace the path (line 271). |
| VmRules.DiskPathWins | internal/resources/vm.go:221-227 | The chosen disk's path, when set, replaces `new_vhd_path` unless the disk is cloned or attached. |
| VmRules.DiskSizeWins | internal/resources/vm.go:200-226 | The chosen disk's readable size, in whole gigabytes, replaces `new_vhd_size_gb` unless the disk is cloned or attached. |
| VmRules.UnsetDiskFieldsKeepLegacy | internal/resources/vm.go:200-227 | A path the chosen disk leaves unset, or a size it leaves unset or unreadable, keeps the legacy attribute. |
| VmRules.FirstDiskWithoutOsDisk | internal/resources/vm.go:187-227 | With no OS disk, the first disk is chosen and its path and size apply. |
| VmRules.Generation | internal/resources/vm.go:177-178 | The generation is the given one when positive, and 2 otherwise. |
| VmRules.DeleteOptions | internal/resources/vm.go:505-519 | `force` is always set. Disks are deleted iff the lifecycle asks for it and no disk is protected. |
| VmRules.PowerTimeout | internal/resources/vm.go:557-559 | The power timeout is the given one when positive, and 240 seconds otherwise. |
| VmRules.DesiredPower | internal/resources/vm.go:552-572 | `running` in any case starts the VM and `stopped` stops it, for a named VM only. A stop is a turn-off iff the method is `turnoff`, and forced iff it is `force`, never both. The timeout is `PowerTimeout`. |
| VmRules.PowerStateMatches | internal/resources/vm.go:574-584 | A state can match only when the desired state is `running` or `stopped` in any case. |
| VmRules.PowerStateIgnoresCase | internal/resources/vm.go:577-581 | Lower-casing either side beforehand changes no answer. |
| VmRules.PowerStatesDisjoint | internal/resources/vm.go:574-584 | No state matches both running and stopped. Running is reached by exactly `running` and `on`, and stopped by exactly `off` and `stopped`, in any case. |
| VmRules.VerifyWindow | internal/resources/vm.go:382-386 | The verify window is 20 seconds, or the positive timeout, capped at 120 seconds. |
| VmRules.LooksNotFound | internal/resources/vm.go:460-461 | The message is "not found" iff its lower-cased text contains one of the three phrases. |
| VmRules.NotFoundAnyCase | internal/resources/vm.go:523-524 | A phrase in any case, anywhere in the message, is recognised. |
| VmRules.ReadVm | internal/resources/vm.go:447-470 | Read fails iff the VM is named, `GetVm` failed, the status is not 404 and the message does not look like "not found". It keeps the state iff `GetVm` succeeded. |
| VmRules.DeleteSkipped | internal/resources/vm.go:501-503 | A named VM whose `GetVm` succeeded is always deleted. A named VM is skipped only when `GetVm` failed with status 404. |
| VmRules.DeleteError | internal/resources/vm.go:520-529 | Delete reports the delete call's error iff it does not look like "not found". |
| VmRules.DeleteProbesOnlyByStatus | internal/resources/vm.go:501-529 | For a not-found message with another status, Read drops the VM, but Delete still calls delete and then swallows the error. |
| DiskPlan.FirstFold | internal/sources/disk_plan.go:113 | Finds the first root equal to the preference ignoring case, or reports that there is none. |
| DiskPlan.ChosenRoot | internal/sources/disk_plan.go:110-115 | The chosen root is a policy root or empty. It is empty iff there are no roots, or the first root is empty and no preferred match is non-empty. |
| DiskPlan.PreferredRootWins | internal/sources/disk_plan.go:111-113 | The first non-empty root matching the preference is chosen, as the policy spells it. |
| DiskPlan.FirstRootOtherwise | internal/sources/disk_plan.go:115 | Without a preference, or with no match, the first root is chosen. |
| DiskPlan.ChooseRoot | internal/sources/disk_plan.go:110-115 | The loop picks `ChosenRoot`. |
| DiskPlan.Extension | internal/sources/disk_plan.go:120-121 | The extension is the given one when non-empty, and `vhdx` otherwise. |
| DiskPlan.Fallback | internal/sources/disk_plan.go:109-133 | The fallback fails with "no allowed roots" iff no root is chosen. Otherwise the plan lies under the chosen root, is named after the VM, and carries the fixed reason, flags and single warning. |
| DiskPlan.Stored | internal/sources/disk_plan.go:135-145 | The state carries every field of the plan and the ID `vm_name:purpose`. |
| DiskPlan.CopyWarnings | internal/sources/disk_plan.go:143-144 | The warnings are copied in order, one for one. |
| DiskPlan.ReadPlan | internal/sources/disk_plan.go:101-145 | Read fails only when `PlanDisk` failed. It then reports the `PlanDisk` error when the policy failed too, and "no allowed roots" otherwise. A stored state has the ID `vm_name:purpose`. |
| DiskPlan.Read | internal/sources/disk_plan.go:78-148 | The data source's steps compute `ReadPlan`. |
| DiskPlan.ServerPlanStored | internal/sources/disk_plan.go:101-145 | A server plan is stored as it came (`Stored`: every field of the plan and the ID `vm_name:purpose`), whatever the policy and the path joining. |
| DiskPlan.PolicyFailureReportsPlanError | internal/sources/disk_plan.go:104-108 | When the policy fails too, the `PlanDisk` error is reported. |
| DiskPlan.NoRootsNoPlan | internal/sources/disk_plan.go:116-119 | A policy without roots gives "no allowed roots in effective policy". |
| DiskPlan.FallbackState | internal/sources/disk_plan.go:109-135 | A fallback state lies under a non-empty policy root, is named `<vm>.<ext>`, has the normalized path equal to the path, and carries the fixed fields and ID. |
| DiskPlan.IdSplits | internal/sources/disk_plan.go:135 | An ID whose VM name has no colon splits at its first colon back into VM name and purpose. |
| Strings.Contains | internal/resources/vm.go:461 | `strings.Contains` holds iff the phrase occurs at some position. |
| Strings.IndexOf | internal/client/negotiate_impersonate_windows.go:64 | The first position of the character, or -1 iff it does not occur. |

## Left out

- Network, SSPI and advapi32 behaviour are oracles with answers fixed in advance. This covers Kerberos/NTLM, token contents, UTF-16 conversion in `logonUserW`, and the logon provider constant.
- The Windows thread pinning is recorded as lock and unlock events. Go scheduling and concurrency between requests are not modelled.
- The error of `revertToSelf` is ignored by the source. The model records the call and has no error path for it.
- Base64 decoding of malformed text keeps Go's partial result: the bytes of the quanta before the first bad character. Go's exact error position and its handling of embedded newlines are not modelled.
- Strings.Lower: maps only the letters whose lower case is ASCII (the ASCII capitals, U+0130 and U+212A). Any other letter is kept, where Go's `strings.ToLower` maps it to another non-ASCII letter. `Strings.Upper` is limited the same way. Every word the core compares a lowered or uppered text with is ASCII, and such a comparison cannot tell the two results apart.
- DiskPlan.FirstFold: `EqualFold` folds only the case orbits that contain an ASCII letter: each ASCII letter with its capital, `s` and `S` with U+017F, and `k` and `K` with U+212A. Go folds every Unicode simple case pair, so a preferred root `D:\VMS\ÉTÉ` picks the policy root `D:\vms\été` in Go but not in the model. Comparing `purpose` with `os` (`VmRules.IsOsDisk`) is exact.
- `filepath.Join` is a parameter, so path cleaning is not modelled.
- Negotiate.CacheBody: a body stream never fails. Line 32 discards the error of `io.ReadAll`, so in Go a read that fails part way caches, and later replays, only the bytes read before the failure. The model always caches the whole body.
- Negotiate.CloneForLeg: a caller-supplied `GetBody` always succeeds and yields the same bytes on every call (`Http.Request.replay`). Line 109 discards its error, so in Go a failing `GetBody` sends that leg with no body. A `GetBody` that returns different bytes on different calls is not modelled either.
- Platform.Host.Send: the base transport reads the whole body it is handed and closes it. A Go transport whose send fails part way may close the body with bytes still unread.
- The VM resource's API calls (`CreateVm`, `PlanDisk` auto-placement, clone, attach, start, stop, `GetVm`, `DeleteVm`), the Terraform schema, diagnostics and state plumbing are not modelled. The model keeps the decisions taken around those calls. So it does not capture that, with a legacy `new_vhd_path` set, a clone that times out does not fail Create, because line 282 of `internal/resources/vm.go` tests only that no path was set.
- The attach call's `type` and `parent_path` pass-through fields, and the canonical memory string kept in state, are not modelled.
- The polling loops of `waitForPower` and of the CPU/memory verification (`time.Now`, `time.Sleep`) are not modelled. Only their per-iteration tests (`VmRules.PowerStateMatches`) and time limits (`VmRules.PowerTimeout`, `VmRules.VerifyWindow`) are.
- `Update` of the VM resource and the provider-not-configured checks are not modelled. The disk-plan request's pass-through fields (size, clone source, minimum free space, co-location) reach the server unchanged and are not modelled.
- The non-Windows builds (`negotiate_other.go`, `negotiate_impersonate_other.go`) return the base transport unchanged and are not part of this model.

## Findings

| source | as written | input that shows it | evidently intended | confidence | as-written member | corrected member |
|---|---|---|---|---|---|---|
| internal/client/negotiate_windows.go:126-128 | A leg accepts a challenge that starts with "negotiate " in any case, but strips the scheme only when it is spelled exactly `Negotiate `. | A leg's 401 carries `Www-Authenticate: negotiate QUJD` (the token [65, 66, 67]). The whole text "negotiate QUJD" is decoded, the first quantum "nego" gives byte 157, and that garbage goes to `Update`. | Strip the scheme ignoring case, as it was matched, and pass [65, 66, 67] to `Update`. | not executed | NegotiateFacts.LowercaseSchemeGarbles | NegotiateFacts.ServerTokenRecovers |
