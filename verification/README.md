# Drone dispatch core, modelled in Dafny

This project models the core of a drone-dispatch service written in Go. The
service puts several drone vendors behind one interface, and the model covers
these parts of it:

- **The plugin registry** (`plugin/register.go`). Each vendor plugin registers
  one factory per capability and then moves through a lifecycle: Registered,
  Enabled, Disabled, Unloaded.
- **The batch loaders** (`plugin/manager.go`). They apply one lifecycle status
  to a whole list of plugins.
- **The token manager** (`plugin/auth.go`). It stores the access token and its
  expiry, and refreshes the token when it is close to expiring.
- **The tenant context** (`pkg/tenant/context.go`). It carries the tenant
  identity and the request id in a request context.
- **The input validators** (`pkg/validator/input_validator.go`). They check
  UUIDs, device serial numbers, names and query parameters.
- **The secure HTTP client** (`pkg/httpclient/secure_client.go`). It checks the
  URL, the method and every header before it builds a request.
- **The DJI Dock 2 adapter** (`plugin/plugins/dji_dock2.go`). It covers the MQTT
  topics, the telemetry (OSD) cache, and the take-off and landing commands.
- **The FlightHub 2 adapter** (`plugin/plugins/fh2.go`). It covers the
  tenant-scoped request envelope, the checks on the response, and the rule
  that every endpoint validates its input before any request.

How the code is organised:

- **State the source updates in place is a class.** This covers the registry,
  the token manager, the validator singleton and both adapters. Each method
  states its new state through a pure function of the old state, for example
  `State() == RegistryModel.Register(old(State()), t, k, f)`. The properties
  are then proved about those functions as lemmas.
- **Loops in the source are methods with loop invariants.** These are the
  batch loaders, the private-host scan and the header copy of `DoRequest`.
- **Pure code is functions and lemmas.**

Inputs the model cannot see become parameters:

- the clock, as an `Instant` in seconds;
- the result of `url.Parse`;
- the outcome of the transport, and of MQTT connect, publish and subscribe;
- `json.Unmarshal`, as a function from a body to `Option<Envelope>`;
- a freshly generated UUID.

Go strings are byte strings, so a `char` stands for one byte wherever the
source counts bytes. `url.QueryEscape`, `url.QueryUnescape` and
`textproto.CanonicalMIMEHeaderKey` from the Go standard library are written
out, because the validators and the client depend on what they do. Header
tokens follow section 3.2.6 of RFC 7230.

Two comments in the source promise something its code does not do:

- the lookup is documented as returning adapters "in the enabled state"
  (plugin/register.go:73), but it never reads the status table, so a disabled
  plugin is still found;
- the telemetry callback is documented as updating the latest OSD data
  (plugin/plugins/dji_dock2.go:78), but it stores the value only when decoding
  fails.

In both cases the model follows the code. The corrected behaviour is modelled
next to it, see "## Findings".

When the token fetch yields no token, `RefreshAccessToken` returns an empty
token and a nil error (plugin/auth.go:67-69). The model does the same.

## Model

| member | source | states |
|---|---|---|
| RegistryModel.Register | plugin/register.go:33-43 | the factory is stored under its plugin type and key, other factories are kept, and the status becomes Registered |
| RegistryModel.Enable | plugin/register.go:46-52 | a known plugin becomes Enabled; an unknown plugin changes nothing |
| RegistryModel.Disable | plugin/register.go:55-61 | a known plugin becomes Disabled; an unknown plugin changes nothing |
| RegistryModel.Unload | plugin/register.go:64-71 | the plugin's factory table is deleted; its status is kept and becomes Unloaded when the plugin was present, and is left as it was otherwise; other plugins are untouched |
| RegistryModel.ResolveEnabled | plugin/register.go:73-74 | the lookup its doc comment describes: a factory is found only when it is registered and its plugin is Enabled |
| RegistryModel.LastRegistrationWins | plugin/register.go:41 | registering the same type and key twice keeps the second factory |
| RegistryModel.RegisterDemotesEnabled | plugin/register.go:42 | registering again resets an Enabled plugin to Registered, so it no longer resolves |
| RegistryModel.DisabledStillFound | plugin/register.go:79-86 | as written, a Disabled plugin's factory is still found by the lookup |
| RegistryModel.ReRegisterAfterUnload | plugin/register.go:37-41 | after Unload, a new registration recreates the plugin with only the new factory, in state Registered |
| RegistryModel.ResolveFollowsLifecycle | plugin/register.go:73-74 | after Register, Enable and Disable, the factory resolves exactly while the plugin is Enabled |
| RegistryModel.AbsentUntilRegistered | plugin/register.go:33-71 | a plugin with no factory table gets none from any sequence of lifecycle calls that does not register it |
| RegistryModel.UnloadedUntilRegistered | plugin/register.go:64-71 | after Unload, every lookup of that plugin misses until it is registered again |
| RegistryModel.MarkAllEffect | plugin/manager.go:7-11 | applying a status to a list gives it to every known plugin in the list and leaves the rest alone |
| RegistryModel.MarkAllOrderFree | plugin/manager.go:14-18 | the outcome of a batch status change depends only on the set of plugins listed, not on their order |
| RegistryModel.UnloadAllEffect | plugin/manager.go:21-25 | a batch unload removes every listed plugin and keeps every unlisted one |
| RegistryModel.BatchOnEmptyList | plugin/manager.go:7-11 | an empty list changes nothing |
| PluginRegistry.Registry.constructor | plugin/register.go:27-30 | a new registry is empty |
| PluginRegistry.Registry.RegisterPlugin | plugin/register.go:33-43 | the new tables are RegistryModel.Register of the old ones |
| PluginRegistry.Registry.Enable | plugin/register.go:46-52 | the new tables are RegistryModel.Enable of the old ones |
| PluginRegistry.Registry.Disable | plugin/register.go:55-61 | the new tables are RegistryModel.Disable of the old ones |
| PluginRegistry.Registry.Unload | plugin/register.go:64-71 | the new tables are RegistryModel.Unload of the old ones |
| PluginRegistry.Registry.Get | plugin/register.go:75-87 | the registered factory is returned with ok true exactly when the type and key are registered, whatever the status; otherwise it returns no instance and false |
| PluginManager.LoadEnableList | plugin/manager.go:7-11 | the loop leaves the registry at RegistryModel.MarkAll of its old state with Enabled |
| PluginManager.LoadDisabledList | plugin/manager.go:14-18 | the loop leaves the registry at RegistryModel.MarkAll of its old state with Disabled |
| PluginManager.LoadUnloadedList | plugin/manager.go:21-25 | the loop leaves the registry at RegistryModel.UnloadAll of its old state |
| Auth.SetToken | plugin/auth.go:32-39 | both tokens are replaced and the expiry is now plus the lifetime |
| Auth.RefreshDue | plugin/auth.go:65 | a refresh is due only when refresh is enabled and the expiry is less than 300 seconds away; an enabled token at or past its expiry is always due |
| Auth.Refresh | plugin/auth.go:61-76 | a token at least 300 seconds from expiry, or one whose refresh is disabled, is kept and returned with no fetch; a failed fetch keeps the tokens and returns "" with no error; a successful fetch becomes both tokens and expires the configured lifetime later; the error is always nil |
| Auth.FailedFetchKeepsTokens | plugin/auth.go:66-69 | when the fetch fails, the credentials are unchanged |
| Auth.RefreshedTokenExpiresLater | plugin/auth.go:70-72 | a successful refresh moves the expiry past the current time exactly when the lifetime is positive |
| Auth.RefreshIsIdempotent | plugin/auth.go:65-74 | with a lifetime of at least 300 seconds, a second refresh at the same time fetches nothing and returns the token just obtained |
| Auth.ZeroLifetimeAlwaysDue | config/config.go:176-178 | when the lifetime setting is absent (zero), every refresh fetches again |
| Auth.ShortLivedTokenIsDue | plugin/auth.go:65-72 | a token set with a 5-second lifetime is due 6 seconds later, and a refresh then replaces it |
| Auth.NewManagerIsDue | plugin/auth.go:23-29 | a new manager, whose expiry is the zero time, is due for refresh at any later time |
| Auth.TokenManager.constructor | plugin/auth.go:23-29 | the new state is the initial credentials for the key |
| Auth.TokenManager.SetAccessToken | plugin/auth.go:32-39 | the new state is Auth.SetToken of the old one |
| Auth.TokenManager.RefreshAccessToken | plugin/auth.go:61-76 | the new state and the returned token and error are those of Auth.Refresh |
| Tenant.NewTenantInfo | pkg/tenant/context.go:31-40 | the new tenant holds the given identity and expires 24 hours after creation |
| Tenant.GetTenantFromContext | pkg/tenant/context.go:55-66 | it returns the stored tenant exactly when one is stored and valid at that time; otherwise an error that says which |
| Tenant.GetRequestIDFromContext | pkg/tenant/context.go:69-75 | it returns the stored request id, or "" when none is stored |
| Tenant.IsValid | pkg/tenant/context.go:78-86 | a valid tenant has a non-zero tenant id and a user token, and is not past a set expiry; a tenant with both and no expiry is always valid |
| Tenant.WithTenant | pkg/tenant/context.go:43-46 | the tenant is stored under the tenant key and every other context entry is kept |
| Tenant.WithRequestID | pkg/tenant/context.go:49-52 | the request id is stored under the request-id key and every other context entry is kept |
| Tenant.MissingIdentityIsInvalid | pkg/tenant/context.go:78-81 | a tenant with tenant id 0 or an empty user token is never valid |
| Tenant.ValidityFollowsExpiry | pkg/tenant/context.go:82-86 | a tenant with an identity is valid exactly when it has no expiry or the expiry has not passed |
| Tenant.NewTenantLifetime | pkg/tenant/context.go:31-40 | a new tenant with an identity is valid up to 86400 seconds after its creation and invalid after that |
| Tenant.TenantRoundTrip | pkg/tenant/context.go:43-46 | a valid tenant stored with WithTenant is read back unchanged |
| Tenant.InvalidTenantRefused | pkg/tenant/context.go:61-63 | a stored tenant that is not valid is refused with the invalid-or-expired error |
| Tenant.RequestIdRoundTrip | pkg/tenant/context.go:49-52 | a request id stored with WithRequestID is read back unchanged, and a context without one gives "" |
| Tenant.KeysAreIndependent | pkg/tenant/context.go:9-16 | storing a tenant does not change the request id, and storing a request id does not change the tenant |
| UrlQuery.QueryEscape | plugin/plugins/fh2.go:127 | the escaped text is empty exactly when the input is, and is never shorter than it |
| UrlQuery.QueryUnescape | pkg/validator/input_validator.go:70-72 | an unescaped string is never longer than the input and is shorter whenever the input holds a '%'; text without '%' or '+' is returned unchanged |
| UrlQuery.UnescapeSucceedsIffWellFormed | pkg/validator/input_validator.go:70-72 | unescaping fails exactly when some '%' lacks two hex digits after it |
| UrlQuery.UnescapeInvertsEscape | plugin/plugins/fh2.go:127-128 | unescaping an escaped byte string succeeds and gives back the original |
| Validator.UuidMatchIffText | pkg/validator/input_validator.go:24-27 | the pattern accepts exactly 36 characters with '-' at positions 8, 13, 18 and 23 and hex digits elsewhere |
| Validator.ValidateUUID | pkg/validator/input_validator.go:19-29 | it passes exactly the UUID text described above; an empty string gets its own error |
| Validator.SerialMatchIffAll | pkg/validator/input_validator.go:41-44 | the serial pattern accepts exactly non-empty strings of letters, digits, '_' and '-' |
| Validator.ValidateDeviceSN | pkg/validator/input_validator.go:32-46 | it passes exactly 1 to 35 bytes of serial characters; empty and over-long input get their own errors |
| Validator.ValidateProjectName | pkg/validator/input_validator.go:49-58 | it passes exactly 1 to 35 bytes, with any content |
| Validator.ValidateQueryParam | pkg/validator/input_validator.go:61-75 | it passes exactly 1 to 100 bytes whose percent escapes are well formed |
| Validator.UuidIsNeverSerial | pkg/validator/input_validator.go:37-39 | a valid UUID is refused as a serial number for being 36 bytes long |
| Validator.SerialHasNoSlash | pkg/validator/input_validator.go:41-44 | a valid serial number contains no '/' |
| Validator.EscapedQueryRefusedOnlyForLength | plugin/plugins/fh2.go:127-130 | an escaped query argument is refused only when it is empty or its escaped form exceeds 100 bytes |
| Validator.ValidatorGlobal.constructor | pkg/validator/input_validator.go:78 | no instance exists before the first call |
| Validator.ValidatorGlobal.GetValidator | pkg/validator/input_validator.go:81-86 | the first call creates the instance and every later call returns the same one |
| SecureClient.ValidateHeader | pkg/httpclient/secure_client.go:92-103 | a header passes exactly when neither key nor value holds CR or LF, the key is at most 100 bytes and the value at most 1000 |
| SecureClient.IsPrivateIP | pkg/httpclient/secure_client.go:106-126 | the scan answers true exactly when the host starts with one of the prefixes, "localhost" among them |
| SecureClient.PrivateHostExamples | pkg/httpclient/secure_client.go:108-117 | 172.31.0.1 and localhost.example.com count as private; 172.15.0.1 and 100.1.1.1 do not |
| SecureClient.ValidateURL | pkg/httpclient/secure_client.go:67-89 | a URL passes exactly when it parses, its scheme is http or https and its host is not empty; each failure has its own error |
| SecureClient.PrivateHostAccepted | pkg/httpclient/secure_client.go:84-86 | a private host does not make the URL check fail |
| SecureClient.CanonicalHeaderKey | pkg/httpclient/secure_client.go:52 | the canonical key has the length of the key; it is made of token characters exactly when the key is, and a key with a non-token byte is kept as it is |
| SecureClient.CanonicalCaseAt | pkg/httpclient/secure_client.go:52 | a canonical key has each letter upper-cased exactly at the start of the key and after each '-', and lower-cased elsewhere |
| SecureClient.CanonicalKeyIdempotent | pkg/httpclient/secure_client.go:52 | canonicalising a header key twice gives the same key as once |
| SecureClient.CanonicalKeyKeepsValidity | pkg/httpclient/secure_client.go:47-52 | a key that passes the header check still passes once it is canonicalised |
| SecureClient.CanonicalFormIsFixed | pkg/httpclient/secure_client.go:52 | a key made of token characters, with upper case exactly at word starts, is its own canonical form |
| SecureClient.UserAgentKeyCanonical | pkg/httpclient/secure_client.go:55 | "User-Agent" is already canonical |
| SecureClient.AcceptKeyCanonical | pkg/httpclient/secure_client.go:56 | "Accept" is already canonical, and "ACCEPT" canonicalises to it |
| SecureClient.HeadersKeptWhenCanonical | pkg/httpclient/secure_client.go:47-53 | when every caller key is canonical, the copied headers are the caller's map |
| SecureClient.SetHeaders | pkg/httpclient/secure_client.go:47-53 | the loop fails exactly when some caller header fails validation, with that header's error; otherwise every caller header is stored once under its canonical key with its own value |
| SecureClient.DoRequest | pkg/httpclient/secure_client.go:36-64 | a request is built exactly when the URL, the method and every header pass, and the errors come in the source's order; the built request carries the URL, the method ("" becomes GET), every caller header under its canonical key, the fixed User-Agent and Accept, and the transport's outcome |
| Dock2.Topic | plugin/plugins/dji_dock2.go:73 | the topic starts with "thing/product/", holds the device right after it and ends with the service, and its length is the sum of its four parts |
| Dock2.TopicRoundTrip | plugin/plugins/dji_dock2.go:73 | a topic built for a device without '/' parses back into that device and service |
| Dock2.ParsedTopicIsBuilt | plugin/plugins/dji_dock2.go:73 | every topic that parses is the topic built from its parts |
| Dock2.ValidSerialTopicRoundTrip | plugin/plugins/dji_dock2.go:73 | a topic built for any valid serial number parses back into it |
| Dock2.CacheAfter | plugin/plugins/dji_dock2.go:75-80 | as written: a payload that decodes leaves the cache as it was; a malformed payload overwrites it with the partial decode |
| Dock2.IntendedCacheAfter | plugin/plugins/dji_dock2.go:76-79 | as intended: a payload that decodes replaces the cache; a malformed one leaves it alone |
| Dock2.CallbackReplacesWholesale | plugin/plugins/dji_dock2.go:75-80 | a callback either keeps the whole cache or replaces it with the whole payload, never a mix |
| Dock2.AsWrittenIgnoresDecoded | plugin/plugins/dji_dock2.go:76-79 | as written, a stream of payloads that all decode never changes the cache |
| Dock2.AsWrittenBatteryStaysZero | plugin/plugins/dji_dock2.go:274-278 | as written, a new adapter fed only valid telemetry reports battery level 0 |
| Dock2.IntendedKeepsOnMalformed | plugin/plugins/dji_dock2.go:76-79 | with the corrected guard, malformed payloads never change the cache |
| Dock2.IntendedLastValidWins | plugin/plugins/dji_dock2.go:76-79 | with the corrected guard, the cache holds the last payload that decoded |
| Dock2.Dock2Adapter.constructor | plugin/plugins/dji_dock2.go:56-61 | the adapter holds the given token, gateway serial and dock serial; the drone serial is empty, the OSD cache is zero and nothing is subscribed |
| Dock2.Dock2Adapter.SubscribeOSD | plugin/plugins/dji_dock2.go:72-87 | the subscription goes to the dock's OSD topic; a refusal is reported and leaves the subscribed flag as it was; the other fields are unchanged |
| Dock2.Dock2Adapter.OnOsdMessage | plugin/plugins/dji_dock2.go:75-80 | the cache becomes Dock2.CacheAfter of the old cache, and nothing else changes |
| Dock2.Dock2Adapter.TakeOffCommand | plugin/plugins/dji_dock2.go:104-111 | the take-off command goes to the gateway's takeoff topic with method takeoff_to_point, the gateway serial as parameter, the given timestamp and the access token |
| Dock2.Dock2Adapter.LandCommand | plugin/plugins/dji_dock2.go:126-133 | the landing command goes to the dock's land topic with method land_to_point, the gateway serial as parameter, the given timestamp and the access token |
| Dock2.Dock2Adapter.TakeOff | plugin/plugins/dji_dock2.go:103-116 | it returns the take-off command in every case, and an error exactly when the publish fails |
| Dock2.Dock2Adapter.Land | plugin/plugins/dji_dock2.go:125-139 | it returns the landing command in every case, and an error exactly when the publish fails |
| Dock2.Dock2Adapter.GetDroneBatteryLevel | plugin/plugins/dji_dock2.go:274-278 | it returns the battery level of the cached telemetry and no error |
| Dock2.LandTopicUsesDock | plugin/plugins/dji_dock2.go:126-133 | both commands name the gateway in their parameters, but the landing topic parses to the dock and the take-off topic to the gateway |
| Dock2.Initialize | plugin/plugins/dji_dock2.go:39-69 | a failed connect or subscribe gives its own error, connect first; otherwise it gives a new adapter built from the parameters, subscribed, with a zero OSD cache |
| Fh2.CheckResponse | plugin/plugins/fh2.go:99-122 | a response is accepted exactly when its status is 2xx, its body is read and decodes, and the business code is not positive; a bad status and a positive code each give their own error |
| Fh2.StatusCheckedBeforeBody | plugin/plugins/fh2.go:100-102 | a non-2xx response is refused whatever its body holds |
| Fh2.BusinessErrorRefused | plugin/plugins/fh2.go:117-119 | the envelope {code 5001, "quota exceeded"} is refused with that code and message |
| Fh2.DoRequestWithHeaders | plugin/plugins/fh2.go:91-123 | a client error is reported as a failed request; otherwise the response goes through the acceptance checks; the request carries the given URL and method |
| Fh2.Verb | plugin/plugins/fh2.go:126-419 | every endpoint uses one of GET, POST, PUT and DELETE, so its method passes the client's method check |
| Fh2.Precheck | plugin/plugins/fh2.go:126-398 | each endpoint validates exactly its own arguments: a device serial number, a task or wayline UUID, the serial and then the name together, or the escaped query text of the project list and HMS endpoints; the others check nothing |
| Fh2.PathIdStaysInSegment | plugin/plugins/fh2.go:152-159 | an identifier that passed validation holds only letters, digits, '_' and '-', so it stays inside its path segment |
| Fh2.QueryEndpointsCheckOnlyLength | plugin/plugins/fh2.go:126-130 | the query endpoints refuse an argument only when it is empty or too long once escaped |
| Fh2.Fh2Adapter.constructor | plugin/plugins/fh2.go:39-44 | a new adapter holds an empty tenant |
| Fh2.AdapterTenant | plugin/plugins/fh2.go:62-66 | the adapter's tenant copies the user token, project UUID and tenant id of the context tenant |
| Fh2.TenantHeaders | plugin/plugins/fh2.go:70-81 | the headers are X-User-Token with the user token, X-Language "zh", X-Request-Id with the context's id or else the fresh UUID, and X-Project-Uuid exactly when the project is set |
| Fh2.Fh2Adapter.DoRequestWithTenant | plugin/plugins/fh2.go:54-88 | with no valid tenant in the context nothing is sent, the tenant error is returned and the adapter is unchanged; otherwise the adapter's tenant is copied from the context, and a request is sent exactly when the URL, the method and every tenant header pass the client's checks; a sent request carries exactly Fh2.TenantHeaders plus the client defaults; nothing sent is an error, a missing response is a transport failure, and a response goes through the acceptance checks |
| Fh2.SentTenantHeaders | plugin/plugins/fh2.go:70-81 | the request carries X-User-Token, X-Language "zh", User-Agent and Accept, X-Request-Id (the context's, or the fresh UUID when that is empty, so never empty), and X-Project-Uuid exactly when the project is set; every name is already canonical, so the client keeps it as it is |
| Fh2.Fh2Adapter.Invoke | plugin/plugins/fh2.go:126-419 | an endpoint whose input fails validation sends nothing and leaves the adapter as it was; after validation it behaves as DoRequestWithTenant with the endpoint's own method: no valid tenant sends nothing, otherwise a request is sent exactly when the URL and every tenant header pass, it carries the tenant headers, and its outcome is the transport failure or the checked response |

## Left out

- Locking and concurrency are not modelled; every operation is one atomic step. The source has several locking defects:
  - `Enable` writes the status table under a read lock (plugin/register.go:47-50); `Disable` takes the write lock (plugin/register.go:56).
  - `RefreshAccessToken` holds the write lock while it calls `GetAccessToken`, which takes the read lock, so it deadlocks (plugin/auth.go:62, 43).
  - `GetAccessToken` returns early without releasing its read lock (plugin/auth.go:47-48).
  - `doRequestWithTenant` writes `tenantInfo` under a read lock (plugin/plugins/fh2.go:61-67).
- The HTTP fetch inside `GetAccessToken` is not modelled (plugin/auth.go:42-58); `Auth.Refresh` takes its outcome as an input.
- The refresh scheduler goroutine is not modelled (plugin/plugins/dji_dock2.go:383-392). It has no stop signal, and it needs a clock and a timer.
- The token lifetime is an input. When the setting is absent it is zero (config/config.go:68, 176-178); `Auth.ZeroLifetimeAlwaysDue` covers that case.
- Auth.SetToken: does not model the overflow of `time.Duration` when the lifetime is multiplied by one second; integers are unbounded.
- Tenant.NewTenantInfo: the source reads the clock twice, once for the creation time and once for the expiry; the model uses one reading for both.
- Tenant.GetTenantFromContext: a nil `*TenantInfo` stored in the context would make the source panic; the model stores tenant values, which cannot be nil.
- Go's fixed-width integers (`int64` tenant ids and battery levels) are unbounded integers in the model.
- The rest of config/config.go is not part of this model. That includes the dereference of `cfg.Drone.Dji` before its nil check (config/config.go:86).
- `PluginsList` is not modelled (plugin/manager.go:28-37). It ranges over `registry.Plugins` (plugin/manager.go:33), a field that the `Registry` struct does not declare (plugin/register.go:19-24).
- PluginRegistry.Registry.Get: returns the registered factory, not an instance. Calling the factory and the type assertion `impl.(T)`, which panics on a mismatch, are not modelled.
- The `init` registrations are not modelled (plugin/plugins/dji_dock2.go:355-380, plugin/plugins/fh2.go:422-427); neither are main.go and plugin/plugins/dji_pilot.go.
- The MQTT client is not modelled. Connect, subscribe and publish outcomes are inputs. `Subscribe`, `GetLiveStreamURL` and `SupportsMqtt` are left out, as are the adapter methods whose bodies only panic.
- Telemetry floats are opaque 64-bit values. `GetDroneLocation` is left out (plugin/plugins/dji_dock2.go:262-271) because it only formats them with `%f`.
- Dock2.Dock2Adapter.TakeOff: returns the command as a `Command` value rather than its JSON text. The JSON encoding is not modelled.
- Dock2.Dock2Adapter.Land: returns the command as a `Command` value rather than its JSON text, for the same reason.
- Per-endpoint URL strings are not modelled; the result of `url.Parse` on each URL is an input. So the model does not show that:
  - `GetModelInfo` formats an `int64` with `%s` (plugin/plugins/fh2.go:409);
  - `GetModelList` has a doubled '/' (plugin/plugins/fh2.go:416);
  - `GetFlightTask` puts the serial number and name into the query unescaped (plugin/plugins/fh2.go:343-353).
- Request bodies are not modelled. `SetFinishUpload` builds its JSON body by hand without escaping (plugin/plugins/fh2.go:376-381).
- `NewFH2Adapter` leaves the secure client nil (plugin/plugins/fh2.go:39-44). Every request that passes validation would panic; the model assumes a working client and takes its transport outcome as an input.
- The construction of the secure client (TLS settings, timeouts, redirect policy) is not modelled (pkg/httpclient/secure_client.go:18-33).
- SecureClient.ValidateURL: omits the private-host check, because the source computes it and discards the result (pkg/httpclient/secure_client.go:84-86).
- SecureClient.DoRequest: when two caller keys share a canonical form, it states only that the value comes from one of them; Go's map iteration order decides which.
- Error messages are modelled as error constructors, not as text.
- The service-layer interfaces (service/) declare method sets only and hold no behaviour to model.

## Findings

| source | as written | input that shows it | evidently intended | confidence | as-written member | corrected member |
|---|---|---|---|---|---|---|
| plugin/register.go:73-86 | `Get` looks up the factory and never reads the plugin's status, although its doc comment says it returns only an Enabled plugin | register a plugin, enable it, then disable it; `Get` still returns its factory | a factory resolves only while its plugin is Enabled | high (not executed) | RegistryModel.DisabledStillFound | RegistryModel.ResolveFollowsLifecycle |
| plugin/plugins/dji_dock2.go:76-79 | the OSD callback returns when `json.Unmarshal` succeeds and stores the partial result when it fails | any stream of well-formed telemetry messages; the cache stays at zero, so `GetDroneBatteryLevel` reports 0 | keep the last telemetry that decoded and ignore malformed messages | high (not executed) | Dock2.AsWrittenIgnoresDecoded | Dock2.IntendedLastValidWins |
