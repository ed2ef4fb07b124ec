# Verified model of the gRPC template's stateful parts

A Dafny model of the mechanisms of this repository whose correctness depends on more than one step, with proofs over
whole runs and interleavings. `dafny verify dfyconfig.toml` checks all of it.

| file | what it models |
|---|---|
| `TokenBucket.dfy`, `PeerTable.dfy` | the token bucket of one peer, and the table of peers with lookup, use and TTL cleanup, as values and runs of timed events |
| `EvictionInvisible.dfy` | when evicting idle peers changes an answer |
| `PeerGuarantees.dfy` | admissions in a window, isolation of peers, what cleanup reclaims |
| `InterleavedLimiter.dfy`, `InterleavedInvisible.dfy` | the same limiter with lookup and use as separate steps that others come between: one bucket per peer, and when evicting changes an answer |
| `InterleavedWindow.dfy` | admissions in a window of that limiter |
| `InterleavedPeers.dfy` | isolation of its peers, and what its ticks leave in the table |
| `MemoryRateLimiter.dfy` | the limiter's objects and methods, proved against `PeerTable` |
| `LimiterConfig.dfy` | replacing the configured limiter and stopping the old one |
| `ClientLifecycle.dfy` | `Connect`, `Close` and the start of the health watch, interleaved at their lock regions |
| `HealthWatch.dfy` | the watch loop and its backoff |
| `Backoff.dfy`, `Retry.dfy` | the retry backoff in wrapping 64-bit arithmetic, and the retry loop |
| `ServerRun.dfy` | the server's set-up, and `Run` against the serving goroutine |
| `RequestId.dfy` | UUID generation, validation and propagation |
| `ClientOptions.dfy` | the client options that decide whether and how `Connect` dials |
| `BearerToken.dfy` | token injection and extraction |
| `Wrappers.dfy`, `Powers.dfy` | `Option`, and powers of two |

How to read it. Time is an integer number of nanoseconds, tokens are exact reals. Clock readings, random words, the
outcome of a dial, a file, a lookup or an RPC, and a scheduler's choices are parameters. Code that updates state is a
class whose methods are proved equal to a value-level step (`Table()`, `View()` and `Value()` give the value); the
theorems are about runs of those steps. Runs are sequences of events of any length, and `ClientLifecycle.Drive`,
`MemoryRateLimiter.Drive` and `LimiterConfig.ConfigureAll` take the objects through any of them.

Where the code and its documentation part:

* Eviction is invisible exactly when limiting is off or `rate * (ttl + 1ns) >= burst`; the nanosecond is there because
  an entry is removed only when it is strictly older than the TTL. A limiter whose buckets refill more slowly grants
  a peer more than one that never evicts, and `EvictionInvisible.SlowRefillIsSeen` gives the schedule. When a request
  may use its bucket up to `delay` after its lookup, the condition is `delay <= ttl` and
  `rate * (ttl + 1ns - delay) >= burst`, unless the burst admits nothing; nothing in the code bounds that delay.
* `Close` is documented to cancel the health watch. A `Close` between the two lock regions of `Connect` does not: the
  watcher is started afterwards, on whatever connection is current by then. `ClientLifecycle.CloseInGapLeaks` shows a
  run that ends with two watchers on one live connection, one of which nothing ever cancels. For every run in which
  all calls have returned this is the only way ownership is lost.
* The backoff is documented to lie between half the base and `base * 2^attempt`. The upper bound always holds, and so
  does the bound on all waits of a call together. The lower bound holds while the product fits in 64 bits, but can fail
  when the product wraps to a small positive number, which the overflow test does not see: `Backoff.LowerBoundIff` says
  exactly when one wait is long enough, `Backoff.SaturatesIff` when the cap works, and `Backoff.TotalAtLeastIff` when
  the waits together are.
* With `retryMax` at the largest int the loop bound overflows: the RPC is never invoked and success is reported. For
  every smaller value it is invoked at least once (`Retry.Retry`).
* A failed TLS option is documented to make `Connect` return its error. When it is the last credential option, it does
  so exactly if no later option reports anything (`ClientOptions.FailureReportedIff`). A later load-balancing option replaces that error by its own if its
  policy is unknown (`ClientOptions.FailureReplaced`), and otherwise clears it, so that the client dials in plain text
  (`ClientOptions.FailureDialsIff`, `ClientOptions.FailureHidden`).
* An unknown load-balancing policy is documented to make `Connect` return an error. A credential option given after it
  clears that error or replaces it by its own: the error is returned exactly if nothing later reports anything
  (`ClientOptions.PolicyReportedIff`, `ClientOptions.PolicyHidden`).
* A limiter that is configured while it is already current is stopped as its own predecessor and stays current, without
  a cleanup goroutine (`LimiterConfig.Reinstalled`). A running limiter that options give ends up stopped exactly if
  a later option writes the limiter again, and current exactly if none does (`LimiterConfig.ConfigureAll`).

## Model

| member | source | states |
|---|---|---|
| TokenBucket.TakeSound | internal/server/interceptor/rate_limit.go:77-83 | A use keeps a bucket between empty and full, and takes one token if and only if it admits. |
| TokenBucket.LevelAdvances | internal/server/interceptor/rate_limit.go:77-83 | What a bucket is worth later depends on the past only through what it is worth now, so two buckets worth the same stay so. |
| TokenBucket.OneSecond | internal/server/interceptor/rate_limit.go:77-83 | The rate is in tokens a second: after 1,000,000,000 ns a bucket holds that many more, up to the burst. |
| PeerTable.DisabledAdmitsAll | internal/server/interceptor/rate_limit.go:77-80 | With a rate of zero or less every request of every run is admitted and the table stays empty, evicting or not. |
| PeerTable.AdmittedIff | internal/server/interceptor/rate_limit.go:81-82 | With a positive rate a request is admitted exactly if its peer is worth a whole token; a new peer's exactly if the burst is at least one. |
| EvictionInvisible.InvisibleIff | internal/server/interceptor/rate_limit.go:183-193 | In every timed run of requests and ticks over any peers, evicting gives the answers of never evicting, exactly when limiting is off or an idle bucket refills within the TTL. |
| EvictionInvisible.RunsAgree | internal/server/interceptor/rate_limit.go:164-193 | The sufficient direction from any pair of tables that are worth the same to every peer. |
| EvictionInvisible.SlowRefillIsSeen | internal/server/interceptor/rate_limit.go:187-191 | A bucket that refills too slowly makes eviction visible on one schedule. |
| EvictionInvisible.BurstDrains | internal/server/interceptor/rate_limit.go:164-179 | Simultaneous requests of a peer are all admitted while its bucket lasts, each costs one token, and all refresh its slot. |
| PeerGuarantees.WindowBound | internal/server/interceptor/rate_limit.go:164-193 | In every window of every run a peer is admitted at most burst + (rate + burst/(ttl + 1ns)) * length times, so never more than with burst/ttl there, and burst + rate * length if rate * (ttl + 1ns) >= burst. |
| PeerGuarantees.WindowAtGain | internal/server/interceptor/rate_limit.go:164-193 | The same for any rate that pays for both refilling and being forgotten, which is sharper than their sum. |
| PeerGuarantees.WindowFrom | internal/server/interceptor/rate_limit.go:164-193 | The accounting behind it, from any table. |
| PeerGuarantees.Isolated | internal/server/interceptor/rate_limit.go:164-193 | The answers to a peer are those of the run without the other peers' requests. |
| PeerGuarantees.TableExact | internal/server/interceptor/rate_limit.go:164-193 | After any run a peer has a slot exactly if its last request was no older than the TTL at the last tick, and the slot carries that request's time. |
| PeerGuarantees.Reclaimed | internal/server/interceptor/rate_limit.go:93-106 | With a tick every ttl/2, a slot present was used within 1.5 ttl, and a peer seen within ttl has its slot. |
| InterleavedLimiter.AlwaysSingleIff | internal/server/interceptor/rate_limit.go:81-82 | No peer ever has two buckets in use, in any interleaving, exactly when requests use their bucket within the TTL of the lookup. |
| InterleavedLimiter.RunInv | internal/server/interceptor/rate_limit.go:164-193 | With delay <= ttl, every legal run from a sound state ends with all requests of a peer holding one bucket, which is in the table and was seen no earlier than they looked it up. |
| InterleavedLimiter.OverdueSplits | internal/server/interceptor/rate_limit.go:187-191 | A request that waits longer than the TTL keeps a bucket that was evicted and replaced. |
| InterleavedLimiter.AtomicAllow | internal/server/interceptor/rate_limit.go:77-83 | A lookup followed at once by its use is the atomic Allow on the table. |
| InterleavedLimiter.AtomicCleanup | internal/server/interceptor/rate_limit.go:183-193 | A cleanup is the sweep of the table, whoever holds a bucket. |
| InterleavedInvisible.InvisibleIff | internal/server/interceptor/rate_limit.go:77-83 | With uses up to any `delay` after their lookup, eviction is invisible in every legal interleaving exactly when the burst admits nothing, or delay <= ttl and rate * (ttl + 1ns - delay) >= burst. |
| InterleavedInvisible.RunsAgree | internal/server/interceptor/rate_limit.go:164-193 | The sufficient direction from any related pair of states, for delays within the TTL. |
| InterleavedInvisible.EvictingGrantsAll | internal/server/interceptor/rate_limit.go:173-178 | On the witness schedule the evicting limiter grants two full bursts. |
| InterleavedInvisible.KeepingGrantsLess | internal/server/interceptor/rate_limit.go:168-171 | On the same schedule the limiter that never evicts grants fewer, if refilling is too slow. |
| InterleavedInvisible.StaleIsSeen | internal/server/interceptor/rate_limit.go:81-82 | A use delayed beyond the TTL is granted from an evicted bucket on top of a full burst from the next one, which a limiter that never evicts does not do. |
| InterleavedWindow.WindowBound | internal/server/interceptor/rate_limit.go:77-83 | In every window of every interleaving with delay <= ttl a peer is admitted at most burst + (rate + burst/(ttl + 1ns - delay)) * length times, and burst + rate * length if a bucket refills in ttl + 1ns - delay. |
| InterleavedWindow.WindowAtGain | internal/server/interceptor/rate_limit.go:164-193 | With delay <= ttl, any rate that pays for both refilling and being forgotten bounds a peer's admissions in every window. |
| InterleavedWindow.WindowFrom | internal/server/interceptor/rate_limit.go:164-193 | The accounting behind it, with delay <= ttl, from any sound state. |
| InterleavedWindow.BoundedIff | internal/server/interceptor/rate_limit.go:81-82 | For a positive burst, some rate bounds every peer's admissions in every window of every interleaving exactly if delay <= ttl. |
| InterleavedPeers.Isolated | internal/server/interceptor/rate_limit.go:77-83 | In every legal interleaving, however long the delay, the answers to a peer's uses are those of the run without the other peers' lookups and uses. |
| InterleavedPeers.TableExact | internal/server/interceptor/rate_limit.go:164-193 | After any legal interleaving a peer has a slot exactly if its last lookup was no older than the TTL at the last tick, and the slot carries that lookup's time. |
| InterleavedPeers.Reclaimed | internal/server/interceptor/rate_limit.go:93-106 | With a tick every ttl/2, a slot present was looked up within 1.5 ttl, and a peer that looked up within ttl has its slot, whatever uses come between. |
| MemoryRateLimiter.Limiter.Allow | internal/server/interceptor/rate_limit.go:82 | The bucket object answers and changes as the bucket value does. |
| MemoryRateLimiter.PeerLimiters.GetLimiter | internal/server/interceptor/rate_limit.go:164-179 | Returns the peer's bucket, made full if it had none, and refreshes its slot and no other; peers never share a bucket. |
| MemoryRateLimiter.PeerLimiters.Cleanup | internal/server/interceptor/rate_limit.go:183-193 | Removes exactly the slots last seen before now - ttl, in whatever order the map is walked. |
| MemoryRateLimiter.MemoryRateLimiter.constructor | internal/server/interceptor/rate_limit.go:57-74 | A new limiter has an empty table, its rate and burst, its TTL if that is positive and ten minutes if not, and a cleanup goroutine exactly if the rate is positive. |
| MemoryRateLimiter.MemoryRateLimiter.Allow | internal/server/interceptor/rate_limit.go:77-83 | Answer and new table are those of the value-level Allow; with a rate of zero or less the request is admitted and nothing changes. |
| MemoryRateLimiter.MemoryRateLimiter.RunCleanupLoop | internal/server/interceptor/rate_limit.go:93-106 | The goroutine's sweeps and the callers' requests between them are together a run of the table, answer by answer, until the stop is received, which ends the goroutine. |
| MemoryRateLimiter.EventsAre | internal/server/interceptor/rate_limit.go:93-106 | The events of that run are the requests and ticks before the first stop, one for one. |
| MemoryRateLimiter.MemoryRateLimiter.Serve | internal/server/interceptor/rate_limit.go:77-83 | Without a cleanup goroutine, the callers' requests alone are a run of the table. |
| MemoryRateLimiter.Drive | internal/server/interceptor/rate_limit.go:57-106 | A limiter from its creation on, through the stop of its goroutine and beyond, gives the answers and the table of a run from the empty table; for a rate that is not positive no tick is part of it, every request is admitted, and the table stays empty. |
| LimiterConfig.RateLimiter.Stop | internal/server/interceptor/rate_limit.go:87-91 | Stopping any number of times closes the stop channel once. |
| LimiterConfig.StopPreviousLimiter | internal/server/interceptor/config.go:197-201 | A limiter with a Stop method is stopped; others and nil are left alone. |
| LimiterConfig.Config.Apply | internal/server/interceptor/config.go:165-187 | An option that writes the limiter stops the old one first; others do not touch it. |
| LimiterConfig.Config.Configure | internal/server/interceptor/config.go:146-152 | Options are applied in order; a limiter that existed before is stopped exactly if it was, or if an option wrote over it, and is current exactly if none did; any other limiter installed is new, and not stopped while current. |
| LimiterConfig.Reinstalled | internal/server/interceptor/config.go:165-170 | Configuring the current limiter again leaves it current and stopped. |
| LimiterConfig.ConfigureAll | internal/server/interceptor/config.go:146-187 | After any sequence of Configure calls on a new configuration, every stoppable limiter ever installed but the current one is stopped, so at most one cleanup goroutine is alive, no channel was closed twice, and each given limiter is stopped or current exactly as the options say. |
| LimiterConfig.OverwritesIff | internal/server/interceptor/config.go:165-187 | An option list writes over a limiter exactly if some option writes and the limiter was current before the list or given earlier in it. |
| LimiterConfig.LeavesCurrentIff | internal/server/interceptor/config.go:165-187 | It leaves a limiter current exactly if that was current or is given, and no option after that writes. |
| ClientLifecycle.ConnectionsConserved | internal/client/client.go:130-142 | In every interleaving each dialled connection is the current one and open, or has been closed exactly once. |
| ClientLifecycle.ConnectedIff | internal/client/client.go:130-142 | After any interleaving the client holds a connection exactly if some Connect's dial succeeded and no Close came after it. |
| ClientLifecycle.ConnectReturns | internal/client/client.go:130-142 | A Connect fails as already connected exactly in that case, returns the dial error exactly if its own dial fails otherwise, and both change nothing. |
| ClientLifecycle.CloseCancels | internal/client/client.go:187-204 | A Close cancels the watcher whose cancel function is kept, connected or not, and no other. |
| ClientLifecycle.WatchesCounted | internal/client/client.go:144-148 | With a health watch configured, each dialled connection has one watch, started or about to be. |
| ClientLifecycle.NoWatch | internal/client/client.go:146-148 | Without one configured there is never a watch. |
| ClientLifecycle.WatcherOwned | internal/client/client.go:142-148 | In every interleaving without a Close in Connect's gap, at all times at most one watcher is alive and it watches the current connection, so none is after Close. |
| ClientLifecycle.WatcherOwnedIff | internal/client/client.go:187-204 | Once every call has returned, the watcher was owned throughout exactly if no Close fell into the gap. |
| ClientLifecycle.DoomedStep | internal/client/client.go:237-243 | More watches to start than room for them stays so, or ownership is lost. |
| ClientLifecycle.LostForever | internal/client/client.go:191-194 | A watcher whose cancel function was overwritten is never cancelled by anything that follows. |
| ClientLifecycle.CloseInGapLeaks | internal/client/client.go:237-243 | One interleaving of two Connects and a Close ends with two watchers on the live connection, one of which nothing ever cancels. |
| ClientLifecycle.Client.ConnectLocked | internal/client/client.go:130-142 | The first lock region: refuse if connected, return the dial error if dialling fails and keep no connection, store the new connection otherwise. |
| ClientLifecycle.Client.StartHealthWatch | internal/client/client.go:237-243 | The second lock region: store the new cancel function over whatever is there, and watch the connection current by then. |
| ClientLifecycle.Client.Close | internal/client/client.go:187-204 | Cancels the watcher it knows, closes the connection once, and forgets both; nothing else changes. |
| ClientLifecycle.Drive | internal/client/client.go:114-148 | A client object taken through the lock regions of any interleaving ends as the run says, and each connection object it dialled is open and current, or was closed exactly once. |
| HealthWatch.WatchLoop | internal/client/client.go:251-296 | The loop ends with the first pass in which cancellation is seen, after an error or in the sleep, and not otherwise: a watch that fails to start and a stream that ends are both followed by another. The sleep after pass i is min(500ms * 2^(i - r), 30s), r being the last pass whose stream opened; a watch call that starts after cancellation is the last; each message is logged once, in order. |
| HealthWatch.WaitShape | internal/client/client.go:268-295 | Every sleep is between 500ms and 30s, is 500ms at first and after a stream, doubles while watches fail, and reaches the cap exactly from the sixth doubling. |
| HealthWatch.DoublingCaps | internal/client/client.go:268 | Doubling and capping step by step is capping the power. |
| Backoff.BackoffDuration | internal/client/interceptor/retry.go:100-123 | For every positive base, attempt and jitter the wait is positive, fits in int64 and is at most base * 2^attempt; for any other base it is zero. |
| Backoff.AttemptsClamped | internal/client/interceptor/retry.go:90-106 | Attempts from 62 on wait like that one, which for a base of one nanosecond means a backoff of 2^62. |
| Backoff.DurationBounds | internal/client/interceptor/retry.go:111-122 | The same for the specification, between half the backoff and less than twice that half, so that adding the jitter never overflows. |
| Backoff.JitterCovers | internal/client/interceptor/retry.go:115-122 | Every wait from half the backoff up to twice that half is reached by some jitter. |
| Backoff.ExponentialBounds | internal/client/interceptor/retry.go:104-113 | The backoff never exceeds the exact product, and equals it when that fits, the clamped attempts included. |
| Backoff.SaturatesIff | internal/client/interceptor/retry.go:107-113 | It is the product capped at the largest int64 exactly when the product fits or its overflow is detected. |
| Backoff.LowerBoundIff | internal/client/interceptor/retry.go:96-99 | Half the base is a lower bound for every jitter exactly when an overflow is detected or the bits of the base that the shift drops are worth no more than what it adds to the others. |
| Backoff.LowerBoundWhenFits | internal/client/interceptor/retry.go:96-99 | Half the base is a lower bound whenever the product fits in int64. |
| Backoff.LowerBoundFails | internal/client/interceptor/retry.go:107-113 | For base 2^40 + 1 and attempt 30 every wait is below it. |
| Backoff.ProductKept | internal/client/interceptor/retry.go:107 | The wrapped product is the kept bits of the base, shifted. |
| Backoff.Nondecreasing | internal/client/interceptor/retry.go:100-123 | While the product fits, no wait is shorter than an earlier one, whatever the jitters. |
| Backoff.TotalAtMost | internal/client/interceptor/retry.go:52-85 | The first n waits add up to at most base * (2^n - 1), whatever overflows. |
| Backoff.TotalAtLeast | internal/client/interceptor/retry.go:52-85 | If base * 2^(n-1) fits in int64, the first n waits add up to at least base/2 + base * (2^(n-1) - 1). |
| Backoff.TotalAtLeastIff | internal/client/interceptor/retry.go:100-123 | They do so for every jitter exactly if it fits. |
| Retry.Retry | internal/client/interceptor/retry.go:46-88 | It invokes again exactly after a status whose code is configured, while retries are left and the context did not end the backoff, and reports the last outcome or the context's error; the waits together take at most base * (2^retryMax - 1). With retryMax at the largest int, and only then, it makes no call and reports success. |
| Retry.Uncancelled | internal/client/interceptor/retry.go:52-66 | Without cancellation the promise means min(i, retryMax) + 1 calls and the last outcome, i being the first final outcome, and nothing else. |
| Retry.CancelledAt | internal/client/interceptor/retry.go:79-85 | The first cancellation, in the backoff after attempt j, means the context's error after exactly j + 1 calls. |
| Retry.WaitsBounded | internal/client/interceptor/retry.go:63-85 | The waits of one call add up to at most base * (2^retryMax - 1), whatever overflows, and to at least base/2 + base * (2^(n-1) - 1) for n of them if base * 2^(n-1) fits in int64. |
| ServerRun.SendNeverBlocks | internal/server/server.go:196-202 | In every interleaving the serving goroutine's send finds room. |
| ServerRun.ReturnsAfterServe | internal/server/server.go:204-219 | Run returns only after that send, having received exactly that value, with health down; it returns nil exactly if its select took the cancellation, and the value as an error exactly if it took the value. |
| ServerRun.Paths | internal/server/server.go:205-219 | A shutdown takes health down, then stops gracefully, waits for that, and drains; a serve failure takes health down and returns. |
| ServerRun.SelectTakesEither | internal/server/server.go:205-216 | At the select the cancellation can be taken exactly once it came, and the serve result exactly once it was sent. |
| ServerRun.NeverStuck | internal/server/server.go:198-219 | Whether cancelled or not, nothing is left for the program to do exactly when Run has returned and the goroutine is gone: the drain never deadlocks. |
| ServerRun.TracesEnd | internal/server/server.go:198-219 | No interleaving goes on for ever: there are at most eight steps, the cancellation included. |
| ServerRun.Server.Prepare | internal/server/server.go:172-194 | The exits before serving; health reports SERVING from set-up on, and an injected listener is used once. |
| RequestId.MatchesIff | internal/server/interceptor/requestid.go:18-21 | The pattern accepts exactly the formatted UUIDs in any mixture of case. |
| RequestId.PatternIff | internal/server/interceptor/requestid.go:18-21 | It is five groups of 8, 4, 4, 4 and 12 hexadecimal digits of either case, with hyphens between. |
| RequestId.FormatLayout | internal/server/interceptor/requestid.go:106-107 | Bytes are formatted in their order, in groups of 4, 2, 2, 2 and 6 with hyphens between. |
| RequestId.HexAt | internal/server/interceptor/requestid.go:106-107 | Each byte gives two lower-case digits, the high one first. |
| RequestId.DecodeFormat | internal/server/interceptor/requestid.go:106-107 | Formatting loses nothing: decoding gives the 16 bytes back. |
| RequestId.FormatDecode | internal/server/interceptor/requestid.go:106-107 | Formatting what a valid ID decodes to gives the ID back, in lower case. |
| RequestId.PatchedBits | internal/server/interceptor/requestid.go:104-105 | Version and variant bits are forced and no other bit changes. |
| RequestId.GenerateUUID | internal/server/interceptor/requestid.go:101-108 | Filling and patching the array in place gives the formatted UUID of the drawn bytes. |
| RequestId.GeneratedRoundTrip | internal/server/interceptor/requestid.go:91-108 | A generated ID is valid, decodes to the drawn bytes but for the forced bits, and shows version and variant in its digits. |
| RequestId.FirstHop | internal/server/interceptor/requestid.go:81-89 | The ID is the first value of the x-request-id header if that matches the pattern, and otherwise a valid one that decodes to the drawn bytes but for the forced bits. |
| RequestId.IdIsKept | internal/server/interceptor/requestid.go:81-89 | Whatever a request carries, it has a valid ID after the first hop, its own if that was valid, and the same at every later hop. |
| ClientOptions.Client.constructor | internal/client/option.go:24-38 | A client has the settings its options leave when applied in order. |
| ClientOptions.Client.Apply | internal/client/option.go:32-106 | Each option's writes are those of its report and its word on credentials. |
| ClientOptions.NewThenConnect | internal/client/client.go:114-128 | A client made with any options and connected does what the last writers decide: it returns the last error, or dials with TLS, in plain text, or in plain text with a warning. |
| ClientOptions.LastWriterDecides | internal/client/client.go:208-222 | Connect dials exactly if the last report, if any, is a success; TLS is what the last credential option set up, never older than a failure; plain text is warned about unless WithInsecure was given. This fixes the outcome. |
| ClientOptions.CredentialLast | internal/client/option.go:32-106 | What Connect does when a credential option comes last, by its arguments: the authority, the certificate presented, or the error of the step that failed. |
| ClientOptions.PolicyLast | internal/client/option.go:237-249 | A policy leaves the credentials as they were; an empty one changes nothing, an unknown one is an error, a known one clears errors and is configured. |
| ClientOptions.AttemptBySettings | internal/client/client.go:208-222 | With no error kept, Connect dials with the TLS kept or else in plain text, with a warning unless that was asked for. |
| ClientOptions.ErrorIsLast | internal/client/option.go:237-249 | The error kept is that of the last option that reported anything. |
| ClientOptions.FailureReportedIff | internal/client/option.go:40-69 | Connect returns the error of a failed last credential option exactly if no later option reports anything. |
| ClientOptions.FailureDialsIff | internal/client/option.go:237-249 | A failed last credential option never leads to TLS, and leads to plain text exactly if the last report comes later and is a success. |
| ClientOptions.FailureHidden | internal/client/option.go:246 | An unreadable certificate followed by a known policy dials in plain text without an error. |
| ClientOptions.FailureReplaced | internal/client/option.go:242-245 | Followed by an unknown policy, it is that policy's error that is returned. |
| ClientOptions.PolicyReportedIff | internal/client/option.go:219-249 | The error of the last policy option that reports is returned by Connect exactly if no later option reports anything. |
| ClientOptions.PolicyHidden | internal/client/option.go:61-66 | A TLS option that succeeds after an unknown policy dials with TLS without an error. |
| BearerToken.InjectToken | internal/client/interceptor/auth.go:77-102 | All branches; what is sent is the source's metadata with the token set, in a copy, and no existing object changes. |
| BearerToken.ExtractsIff | internal/server/interceptor/auth.go:115-137 | A token is extracted exactly from itself or from itself after the scheme in any case. |
| BearerToken.ErrorsIff | internal/server/interceptor/auth.go:115-137 | Without metadata, without a value, and with nothing but the scheme, exactly the error for that case comes out; in all others a token. |
| BearerToken.SchemeIff | internal/server/interceptor/auth.go:126-130 | The scheme is the word bearer in any case and a space. |
| BearerToken.RoundTrip | internal/server/interceptor/auth.go:126-136 | For every non-empty token and prior metadata the server extracts the token the client set, and all other keys arrive unchanged. |
| BearerToken.InjectThenExtract | internal/client/interceptor/auth.go:99-101 | Injection by the client object followed by extraction yields the source's token. |

## Left out

- The token bucket library is not part of this model: `TokenBucket` is the standard bucket over exact reals, without
  the infinite rate, floating-point rounding, or clock readings that go backwards within a run.
- Ticks may come at any time in `PeerTable.Run`; only `PeerGuarantees.Reclaimed` and `InterleavedPeers.Reclaimed` assume they are punctual.
- A TTL of one nanosecond, for which the ticker's period would be zero.
- `peerKey`: a peer is an arbitrary string; parsing addresses and proxy headers is not modelled.
- ClientLifecycle.Client.StartHealthWatch: the context is made before the lock in the code and inside the step here, which nothing can observe.
- MemoryRateLimiter.MemoryRateLimiter.RunCleanupLoop: a request between its ticks looks its bucket up and uses it in one step; the two apart are the subject of `InterleavedLimiter.Run`.
- ServerRun.ReturnsAfterServe: does not cover the exits before the goroutine starts, which `ServerRun.Server.Prepare` states, nor two overlapping `Run` calls on one server.
- Loading certificates, listening, signals, gRPC transport, reflection, logging: reduced to success, failure or an event.
- The serving goroutine's `Serve` is taken to return once the server is stopped, and `GracefulStop` to return.
- The interceptors for timeouts, validation, recovery and logging, the greeter service and the server's own options: each is one branch, or repeats the option fold.
- Concurrent `Configure` calls: they hold one lock throughout, so they are sequences of calls here.
- The metadata a hop receives is what the previous one sent, with keys already in lower case.
