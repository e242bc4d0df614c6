# A verified model of Always-Cache

Always-Cache is a shared HTTP cache that refreshes its entries instead of letting them expire. This
project models, in Dafny 4.11, how it keys, stores, selects, validates, replays and refreshes
responses, and proves what that promises to clients. `dafny verify dfyconfig.toml` checks all of it.

The modules follow the program:

- `Text`, `Http`: strings, header fields and requests as the Go libraries treat them; list fields.
- `CacheControl`, `Freshness`, `StoreGate`: directives, ages and lifetimes in 64-bit nanoseconds, the store decision.
- `CacheKey`: the printer and parser of composite keys, the cache's Vary test, and the relation of section 4.1 of
  RFC 9111 that both are measured against.
- `Wire`, `Tee`: the recorded form of a response and its reader; the recorder with two sinks.
- `System`, `Selection`: entries, the decision on reuse, and which entry a request gets.
- `Updates`, `Refresh`, `ReadYourWrites`: everything that follows a response, as functions on the whole
  state, and what they guarantee.
- `Serve`: the objects of the program — writer, provider, cache — whose methods are proved equal to those functions.
- `Protocol`: all interleavings of requests, goroutines, updater and clock, one small step at a time.
- `Sequential`: what the cache does when nothing overlaps, by the functions of `Updates`, is a run of `Protocol`.
- `Overlap`: read-your-writes when goroutines overlap, with the exact condition for it.
- `Renewals`: what the follow-up of an unsafe request and a refresh achieve when everything else is interleaved with them.
- `Example`, `LateExample`: concrete runs and requests — a hit, a response served to the wrong client, a stale
  response revived by a foreign entity tag, and a response older than a write.
- `Serializer`: the delimiter format of serialized responses.

The environment is arbitrary: the origin's reply and the duration of an exchange are functions of the
exchange's number and the request (or free choices of a step in `Protocol`); HTTP dates, URI
resolution and the delay directive are functions in `Config`. `System.ExchangeOk` says what an origin's
reply is: what `net/http` delivers, with a status of three digits, well-formed fields, no
Transfer-Encoding and a right Content-Length if there is one. A body is a string of characters that
stand for bytes. A request is the one seen after the optional request modifier.

Some promises do not hold of the code as it stands. Each is stated with the exact condition under which it does:

- Vary is compared on the first line of each field (`Header.Get`), not on the combined lines of section 4.1: requests
  that differ in a second line share a key, and one is accepted for the other's variant
  (`CacheKey.FurtherLinesAreIgnored`). The test keeps section 4.1 exactly when the further lines agree, in particular
  when each nominated field has one line (`CacheKey.MatchMeetsSection41Iff`, `CacheKey.OneLineIff`). A refetch sends
  only the first line, repeated if Vary repeats the name (`CacheKey.DecodedMeetsSection41Iff`).
- A validation keeps the client's own preconditions. A 304 vouches for the stored response exactly when its ETag is
  sent, or the client sends no If-None-Match and either no If-Modified-Since or the stored Last-Modified replaces it
  (`System.VouchesIff`, `Example.ForeignTagRevives`).
- Section 4 of RFC 9111 is stated apart from the code: matching by combined lines, directives by list members, and
  freshness by unbounded numbers from the instants at which the origin was asked and answered (`System.Section4`).
  What is sent from the store satisfies it exactly when nothing was overlooked (`System.Section4Iff`,
  `Protocol.ServeSoundness`): further lines that differ; a `safe` that is only a quoted word; a `no-cache` behind a
  bare comma (`Example.HiddenNoCacheIsServed`); after a 304, a foreign precondition; and that the stale instant has
  been reached, where the machine misjudges time. It may do so only if a lifetime or Age is read otherwise than by the
  RFC, the Date is missing (`Example.UndatedIsServed`), or the instants span more than a century
  (`Freshness.FreshMeansRfcFresh`). A lifetime is read otherwise if it is hidden or quoted, not a number, beyond
  9223372036, or given twice: the last occurrence counts instead of the first.
  `Protocol.SimpleExchangesMeetSection4` names requests and responses of which nothing is overlooked.
- Read-your-writes fails when a goroutine stores late: a client is then served a response from before the write
  (`LateExample.OlderThanTheWrite`). A path stays up to date in every continuation exactly when it is so now and no
  thread holds a job that may store an older response to a GET of it (`Overlap.PathStaysCurrentIff`). Under
  that condition a write is seen once its own follow-up is done, whatever is interleaved with it
  (`Renewals.ReadsSeeTheWriteOverlapping`).
- A response without a usable Date counts as fresh, for centuries, once the clock has moved past its receipt: the
  saturated age wraps around (`Freshness.DatelessFreshIff`).
- Delta-seconds are exact up to 9223372036; above that they wrap, at first to negative lifetimes
  (`Freshness.DeltaSecondsExactIff`, `Freshness.DeltaSecondsTurnsNegative`).
- Cache-Control is split at ", " wherever it stands. The pieces are the list members of section 5.6.1 of RFC 9110
  exactly when the commas followed by a space are those outside quoted strings and members carry no other blanks
  (`CacheControl.PiecesAreMembersIff`). So `private,no-store` is stored, and so is a response whose only directive
  quotes the word `public` between commas (`StoreGate.UnspacedPrivateIsStored`, `StoreGate.QuotedPublicIsStored`).
- The store decision groups `&&` before `||`, and reads directives by the same pieces. `StoreGate.StoresTooMuchIff` and
  `StoreGate.StoresTooLittleIff` give exactly the cases in which it stores what section 3 forbids and refuses what
  section 3 allows, for instance `public, no-store` and an authenticated `max-age=3600,public`
  (`StoreGate.PublicNoStoreIsStored`, `StoreGate.UnspacedPublicIsRefused`). With well-spaced directives three
  differences are left (`StoreGate.WellSpacedStoresIff`).
- A `Cache-Key` does not isolate: a request is offered, and served, the entries of every longer `Cache-Key`
  (`CacheKey.OfferedIff`, `Example.CacheKeyDoesNotIsolate`).
- Decoding a key restores its `Cache-Key` only if the Vary list names that field (`CacheKey.ReencodeIff`). Otherwise
  the updater can neither renew nor remove the entry while replies are storable, and once the entry is the earliest
  to expire it keeps the updater from all others (`Refresh.CacheKeyEntryStarvesOthers`).
- Revalidation after an unsafe request leaves the old response in place when the new one may not be stored
  (`ReadYourWrites.RevalidateOne`).
- The serialized form breaks for a request part that ends like the beginning of the delimiter, although it contains
  no delimiter (`Serializer.SplitRecoversIff`, `Serializer.DashesBreakTheFormat`).

The repository's own documentation calls the update field `Cache-Fetch`; the code reads `Cache-Update`, and so does the model.

## Model

| member | source | states |
|---|---|---|
| Http.GetListHeader | rfc9111/3.1._storing-header-and-trailer-fields.go:58-66 | the nested loops collect exactly the list's members, line by line |
| Http.CombiningKeepsList | rfc9111/3.1._storing-header-and-trailer-fields.go:58-66 | joining any number of lines with commas and any blanks around them gives the same members |
| Http.MembersWithoutWhitespace | rfc9111/3.1._storing-header-and-trailer-fields.go:58-66 | blanks and tabs around a member are dropped, and nothing else |
| Http.CanonicalCase | pkg/cache-key/key.go:88-96 | a field name is looked up with capitals at the start and behind hyphens only |
| Http.TokenCharIff | pkg/cache-key/key.go:79-81 | the characters of a method are the visible ones but the delimiters |
| CacheControl.ParseCacheControl | rfc9111/5.2._cache-control.go:53-70 | the nested loops build the map that `Parse` specifies |
| CacheControl.LookupIsLast | rfc9111/5.2._cache-control.go:53-70 | a directive is present iff some piece names it, and its argument is that of the last one |
| CacheControl.ArgumentForms | rfc9111/5.2._cache-control.go:72-83 | token and quoted forms of an argument read the same, under the name in lower case |
| CacheControl.NoArgument | rfc9111/5.2._cache-control.go:59-66 | a directive without `=` reads as its name and no argument |
| CacheControl.DirectivesIgnoreCase | rfc9111/5.2._cache-control.go:72-76 | lines that differ only in case have the same directives |
| CacheControl.CombiningKeepsDirectives | rfc9111/5.2._cache-control.go:53-70 | parsing all lines equals parsing the one line joined with ", " |
| CacheControl.PiecesAreMembersIff | rfc9111/5.2._cache-control.go:58-67 | the pieces are the members of the list syntax, quoted strings respected, iff the commas followed by a space are those outside quotes and members are trimmed |
| CacheControl.UnspacedCommaHidesDirectives | rfc9111/5.2._cache-control.go:58-67 | `private,no-store` has neither directive |
| CacheControl.QuotedWordIsDirective | rfc9111/5.2._cache-control.go:58-67 | a word between commas inside a quoted argument is read as a directive, though the line is one member without it |
| CacheControl.WellSpacedIsReadRight | rfc9111/5.2._cache-control.go:53-70 | if every line is spaced as the parser expects, it finds exactly the directives of the list members |
| CacheControl.FirstIsLast | rfc9111/5.2._cache-control.go:53-70 | for a directive that stands once, the last occurrence the parser keeps is the first one the RFC uses |
| Freshness.DeltaSecondsExactIff | rfc9111/1.2._syntax-notation.go:60-66 | the conversion of the digits of a 64-bit number is exact iff it is at most 9223372036 |
| Freshness.DeltaSecondsTurnsNegative | rfc9111/1.2._syntax-notation.go:60-66 | the numbers just beyond give negative durations |
| Freshness.AgeOfDigits | rfc9111/5.1._age.go:34-42 | the first member of Age counts, up to parameters or further members |
| Freshness.AgeOfOtherText | rfc9111/4.2.3._calculating-age.go:24-29 | an Age that is missing or no number counts as 0 |
| Freshness.LifetimeIsFirstMatch | rfc9111/4.2.1._calculating-freshness-lifetime.go:19-54 | s-maxage before max-age before Expires minus Date (or the present instant) before 0 |
| Freshness.MachineAgeIsRfcAge | rfc9111/4.2.3._calculating-age.go:79-125 | saturating and wrapping arithmetic gives the unbounded formula when all instants lie in one century and Age is at most 2^31 seconds |
| Freshness.RfcAgeIsMaximum | rfc9111/4.2.3._calculating-age.go:79-118 | with request, response and now in order, age is the largest of three elapsed times |
| Freshness.AgeOfDatedResponse | rfc9111/4.2.3._calculating-age.go:37-118 | the age of a response is the formula's from the instant its Date field gives, and it is fresh iff its lifetime exceeds that |
| Freshness.AgeOfUndatedResponse | rfc9111/4.2.3._calculating-age.go:37-45 | a Date that is missing or not understood counts as the first instant of the year 1 |
| Freshness.PersistedAgeIsConservative | cache/cache-provider.go:112-147 | ages computed from kept whole seconds are never smaller and less than a second larger |
| Freshness.FreshUntilStale | rfc9111/4.2.0-freshness.go:55-58 | with the lifetime the machine reads, it takes a response for fresh exactly before the stale instant of the unbounded formula |
| Freshness.StaleStays | rfc9111/4.2.0-freshness.go:55-58 | a stale response never becomes fresh again |
| Freshness.FreshIsRfcFreshIff | rfc9111/4.2.0-freshness.go:55-58 | where nothing is misread, machine freshness by the kept times is that of sections 4.2.1 and 4.2.3, with directives of the list members and unbounded numbers |
| Freshness.FreshMeansRfcFresh | cache/cache-provider.go:112-147 | and then the response is fresh by the instants at which the origin was asked and answered |
| Freshness.PlainIsReadRight | rfc9111/4.2.1._calculating-freshness-lifetime.go:19-54 | well-spaced directives, each lifetime and Age one number in range: nothing is misread |
| Freshness.FreshAfterReload | cache/cache-provider.go:112-114 | fresh by the kept times implies fresh by the exact ones |
| Freshness.ExpiryNotUndercut | rfc9111/4.2.1._calculating-freshness-lifetime.go:10-15 | a fresh response with a whole-second lifetime has not reached its stored expiry |
| Freshness.ExpiryGap | rfc9111/4.2.1._calculating-freshness-lifetime.go:10-15 | without Age, and Date after the request, the expiry is late by at most the truncated response delay |
| Freshness.DatelessAge | rfc9111/4.2.3._calculating-age.go:37-45 | the exact age the machine computes without a Date |
| Freshness.DatelessFreshIff | rfc9111/4.2.3._calculating-age.go:37-45 | without a Date a response is fresh iff the clock has moved past its receipt, by no more than its lifetime is above the smallest duration |
| Freshness.AgeTextRounds | rfc9111/1.2._syntax-notation.go:68-70 | the Age text parses to a number of seconds within half a second of the age |
| StoreGate.MayStoreIff | rfc9111/3.0_storing-responses-in-caches.go:32-83 | stored iff `public` or `s-maxage`, or an unauthenticated GET or POST with a final, understood status and neither `no-store` nor `private` |
| StoreGate.StorableIff | rfc9111/rfc9111.go:24-39 | the operation stores iff there is any field and storing is legitimate |
| StoreGate.StoresTooMuchIff | rfc9111/3.0_storing-responses-in-caches.go:36-76 | the exact cases in which a response is stored that section 3, over list members, forbids |
| StoreGate.StoresTooLittleIff | rfc9111/3.0_storing-responses-in-caches.go:36-76 | the exact cases in which a response is refused that section 3 allows |
| StoreGate.WellSpacedStoresIff | rfc9111/3.0_storing-responses-in-caches.go:36-76 | with well-spaced directives and no empty Authorization: the differences that the grouping and the missing `must-revalidate` leave |
| StoreGate.PublicNoStoreIsStored | rfc9111/3.0_storing-responses-in-caches.go:56-68 | `public, no-store` is stored |
| StoreGate.UnspacedPrivateIsStored | rfc9111/3.0_storing-responses-in-caches.go:56-68 | `private,no-store` is stored, against section 3 |
| StoreGate.UnspacedPublicIsRefused | rfc9111/3.5._storing-responses-to-authenticated-requests.go:14-17 | an authenticated `max-age=3600,public` is refused, which section 3 allows |
| StoreGate.QuotedPublicIsStored | rfc9111/3.0_storing-responses-in-caches.go:56-68 | a response that only quotes the word `public` between commas is stored whatever its request and status |
| CacheKey.AddVaryKeys | pkg/cache-key/key.go:53-61 | the loop builds the full key |
| CacheKey.GetVaryHeaders | pkg/cache-key/key.go:88-96 | the loop rebuilds the header of the key's lines |
| CacheKey.MatchIsTransitive | rfc9111/4.1._calculating-cache-keys-with-the-vary-header-field.go:16-53 | the cache's test is symmetric and transitive |
| CacheKey.MatchMeetsSection41Iff | rfc9111/4.1._calculating-cache-keys-with-the-vary-header-field.go:16-53 | where the test accepts, section 4.1 does iff the further lines of every nominated field agree |
| CacheKey.OneLineMatch | rfc9111/4.1._calculating-cache-keys-with-the-vary-header-field.go:16-53 | with one line for each nominated field the test is the rule of section 4.1 |
| CacheKey.OneLineIff | rfc9111/4.1._calculating-cache-keys-with-the-vary-header-field.go:16-53 | a request is matched soundly against all single-line ones iff it has single lines itself |
| CacheKey.FurtherLinesAreIgnored | pkg/cache-key/key.go:53-61 | two requests that do not match under section 4.1 and have one key |
| CacheKey.KeyEqualityIsHeaderMatch | pkg/cache-key/key.go:43-61 | for a Vary list without `*`, keys are equal iff method, URI and `Cache-Key` agree and the cache's test accepts |
| CacheKey.KeyEqualityIsVaryMatching | pkg/cache-key/key.go:43-61 | with single lines, keys are equal iff method, URI and `Cache-Key` agree and the fields match under section 4.1; of equal keys, the fields match iff the further lines agree |
| CacheKey.KeyIgnoresVaryCase | pkg/cache-key/key.go:53-61 | Vary lists that differ only in the case of their names give the same key |
| Text.NotCut | pkg/cache-key/key.go:71-78 | cutting a text without the separator leaves it whole |
| CacheKey.DecodeEncode | pkg/cache-key/key.go:66-96 | decoding a written key succeeds and gives method, URI and exactly the nominated present fields |
| CacheKey.OddKeysDoNotDecode | pkg/cache-key/key.go:66-78 | what keys of another origin, without a tab or without a colon decode to, and that no method means GET |
| CacheKey.UriDecodesIff | pkg/cache-key/key.go:79-82 | a key decodes iff its URI has no control characters |
| CacheKey.DecodedMatches | pkg/cache-key/key.go:66-96 | the decoded request agrees with the original on method and URI, and passes the cache's test against it iff `*` is not nominated |
| CacheKey.DecodedMeetsSection41Iff | pkg/cache-key/key.go:66-96 | it matches the original under section 4.1 iff every nominated field is its first line, as often as Vary names it |
| CacheKey.RestorableIff | pkg/cache-key/key.go:66-96 | for a field named once: iff it has no second line |
| CacheKey.ReencodeIff | pkg/cache-key/key.go:53-96 | encoding the decoded request gives the key back iff there was no `Cache-Key` or Vary names it |
| CacheKey.RefreshKeyIff | pkg/cache-key/key.go:53-96 | a refetch is stored under the old key iff moreover it nominates the same present fields in order |
| CacheKey.OfferedIff | pkg/cache-key/key.go:40-49 | the prefix search finds exactly the keys of the same method and URI whose `Cache-Key` extends the request's |
| CacheKey.MethodPrefixIff | pkg/cache-key/key.go:34-38 | the method prefix selects exactly the keys of that method |
| Example.CacheKeyDoesNotIsolate | pkg/cache-key/key.go:40-49 | a request is served, unchecked, a response stored under another `Cache-Key` |
| Wire.ReplayIsFaithful | always-cache.go:173-185 | reading a recorded response gives its status, header multimap and arbitrary body |
| Wire.RepliesAreFree | always-cache.go:173-185 | replayable are all replies of three digits, with any well-formed fields, any body, and a right length if there is one |
| Wire.BodyToTheEnd | always-cache.go:173-185 | without a length the recorded body is everything behind the head |
| Wire.BodilessReplies | always-cache.go:173-185 | what was stored for HEAD, 1xx, 204 and 304 reads back without a body |
| Wire.PragmaIsNoCache | always-cache.go:173-185 | the one field a reader adds |
| Tee.ResponseWriter.CopyHeader | always-cache.go:326-336 | copies every line of every field but the omitted ones |
| Tee.ResponseSaver.WriteHeader | pkg/response-writer-tee/tee.go:28-47 | the effect on both sinks, with the status filter |
| Tee.ResponseSaver.Write | pkg/response-writer-tee/tee.go:50-61 | the effect on both sinks, with the implied status 200 |
| Tee.RunRecords | pkg/response-writer-tee/tee.go:28-66 | what the buffer holds after any sequence of calls |
| Tee.BufferIsOneResponseIff | pkg/response-writer-tee/tee.go:28-66 | the buffer is one recorded response iff exactly one head was written |
| Tee.SinksAgree | pkg/response-writer-tee/tee.go:28-61 | with one head the client got the recorded status and all writes, or nothing if the status is filtered |
| System.ReadMade | always-cache.go:173-185 | a stored entry reads back as its exchange's response, with a request that stands for its request |
| System.EntryTimes | cache/cache-provider.go:140-147 | an entry's times are the whole seconds of request, receipt and end of lifetime; without a lifetime it never falls due |
| System.EntryExpiryGap | always-cache.go:256-262 | the stored expiry is later than the RFC's stale instant by the age at receipt and the delay of the decision, up to a second |
| System.DecideIff | rfc9111/4.0_constructing-responses-from-caches.go:32-90 | among offered entries, in terms of the exchange behind them: reuse iff the cache's tests select the response and it needs no validation; validation iff selected but not so |
| System.ReuseIsSection4 | rfc9111/4.0_constructing-responses-from-caches.go:32-90 | with single lines, well-spaced directives and nothing misread, reuse is exactly what section 4 allows by the kept times, and allowed by the exact ones |
| System.VouchesIff | rfc9111/4.3.1._sending-a-validation-request.go:48-66 | a 304 answers the stored response's validator iff no precondition of the client's own is left to decide |
| System.Section4Iff | rfc9111/4.0_constructing-responses-from-caches.go:32-90 | what is sent from the store satisfies section 4, stated apart from the code's parser and clock, iff nothing was overlooked |
| System.ForeignTagIsForwarded | rfc9111/4.3.1._sending-a-validation-request.go:48-66 | without stored validators a client's entity tag goes to the origin as it is |
| Example.ForeignTagRevives | always-cache.go:126-171 | a stale response is sent after a 304 to the client's own entity tag |
| Example.HiddenNoCacheIsServed | rfc9111/4.0_constructing-responses-from-caches.go:58-68 | a response with `no-cache,public` is served unchecked, against section 4 |
| Example.UndatedIsServed | rfc9111/4.2.3._calculating-age.go:37-45 | a response without Date and with a lifetime of a second is served for a century, against section 4 |
| System.ConditionalCarriesValidators | rfc9111/4.3.1._sending-a-validation-request.go:6-83 | the conditional request is the client's with the stored validators |
| System.CombiningChangesNothing | rfc9111/3.1._storing-header-and-trailer-fields.go:58-66 | combining Cache-Control and Vary lines changes neither storing, nor lifetime, nor matching |
| Selection.PlanComesFromEntry | always-cache.go:118-123 | the loop's outcome is the decision on one of the offered entries |
| Selection.FirstUsableDecides | always-cache.go:118-123 | the first entry that is not passed over decides |
| Selection.UniqueSelection | always-cache.go:114-143 | with one Vary list and no `Cache-Key` at a URI, at most one stored response can be used for a request |
| Selection.OrderDoesNotMatter | always-cache.go:114-124 | then the outcome is the same for every order of the entries |
| Selection.ServedIff | always-cache.go:114-143 | then a request is served an entry without origin contact iff it is selected, has no `no-cache`, and is before its stale instant |
| Selection.OwnRequestSelects | rfc9111/4.0_constructing-responses-from-caches.go:113-123 | a repeated request is selected its own response unless `*` or an unsafe method without `safe` forbids it |
| Selection.ServedBeforeExpiry | always-cache.go:256-262 | an entry served unchecked has not reached its stored expiry |
| Updates.FollowUpEvolves | always-cache.go:199-206 | following up keeps the invariant, and changes entries only to ones of this or later exchanges |
| Updates.KeepStoresIff | always-cache.go:241-267 | a reply with any field that may legitimately be stored is written under its key and reads back; any other changes nothing |
| Updates.SaveRequestStoresIff | updater.go:120-131 | the same for a request sent to be stored |
| ReadYourWrites.FollowUpStoresIff | always-cache.go:199-206 | after the follow-up the reply is under its own key iff it may legitimately be stored; otherwise that key is as it was |
| Updates.UpdateEntryEvolves | updater.go:87-118 | so does refreshing an entry |
| Updates.HandleEvolves | always-cache.go:114-124 | so does a request with all it sets off |
| Refresh.UpdateEntryEffect | updater.go:87-118 | through both attempts: one write under the stored reply's own key, or a purge of the key |
| Refresh.RefreshesInPlace | updater.go:87-131 | the key ends absent or renewed, with every other key unchanged, when the attempt is stable; otherwise the old entry stays |
| Refresh.RefreshStableIff | updater.go:87-131 | stability in terms of the `Cache-Key` and the nominated fields |
| Refresh.CacheKeyEntryStaysBehind | updater.go:87-131 | refreshing an entry under an unnominated `Cache-Key` leaves it as it was |
| Refresh.CacheKeyEntryStarvesOthers | updater.go:57-75 | over any number of iterations, such an entry with the earliest expiry is taken every time and stays due; no other is refreshed |
| Refresh.SleepsOnlyWhenNothingIsDue | updater.go:57-75 | the loop has an entry to refresh iff some GET entry with a positive expiry ends within a second |
| Refresh.IdlesForASecond | updater.go:57-75 | otherwise it waits for a second and does nothing else |
| Refresh.RefreshTakesTime | updater.go:87-118 | one request, or two with a second in between if the first reply is not stored |
| Refresh.RefreshShrinksDue | updater.go:57-75 | one refresh removes exactly its key from the entries due by a cut-off |
| Refresh.PassTerminates | updater.go:57-75 | the number of due entries bounds the iterations of a pass without sleep |
| ReadYourWrites.WriteUpdatesPaths | updater.go:25-49 | after a write with zero-delay updates, whatever a GET of the path is offered stems from the write or later, and the path is stored |
| ReadYourWrites.DelayedUpdatesWait | updater.go:40-44 | an update with a delay is not made with the write |
| ReadYourWrites.ReadsSeeTheWrite | updater.go:25-49 | and so for every read after any further events that follow one another |
| ReadYourWrites.WriteRenewsAffected | updater.go:13-24 | target, Location and Content-Location URIs lose the response they had under the bare key: fetched anew, or removed with updates off |
| ReadYourWrites.RevalidateOne | updater.go:132-148 | the origin is asked only if the URI is cached; its entry is renewed if the reply may be stored, and otherwise the old one stays |
| ReadYourWrites.RevalidateRenews | updater.go:132-148 | every cached URI of a list is renewed, given storable replies |
| ReadYourWrites.InvalidateRemoves | updater.go:150-160 | exactly the bare keys of the listed URIs are removed |
| ReadYourWrites.AffectedIsListed | rfc9111/4.4._invalidating-stored-responses.go:14-72 | the URIs collected are exactly the affected ones of an unsafe request with a non-error reply |
| ReadYourWrites.AskedUpdateIsListed | pkg/cache-update/cache-update.go:25-40 | the updates collected are exactly those the fields ask for, with their delays |
| Serve.HitSendsRecordedResponse | always-cache.go:145-159 | field by field, a hit sends the recorded response with Age replaced, `Always-Cache; hit` appended to Cache-Status, and only X-Forwarded-For, -Proto and -Host dropped |
| Serve.ServedFromStore | always-cache.go:126-159 | a hit, and a validation answered by 304, send the stored response and leave nothing to do |
| Serve.MissSendsReply | always-cache.go:208-239 | a miss sends the origin's reply with the reason in Cache-Status; 301, 302, 303, 307 and 308 are followed up before it returns, all others later |
| Serve.FailedCheckSendsReply | always-cache.go:161-171 | any answer to a validation but 304 is sent as it is, and queued |
| Serve.RedirectIsFollowedUpFirst | always-cache.go:221-228 | when a write answered by a redirect returns, nothing is pending, and the paths it updates are up to date |
| Serve.DeliverIs | pkg/response-writer-tee/tee.go:28-66 | a delivered reply is recorded as one response and reaches the client unless filtered |
| Serve.AlwaysCache.ReverseProxy | always-cache.go:161-171 | one exchange; the recorder holds the origin's reply and nothing of this cache's own fields |
| Serve.AlwaysCache.ServeHTTP | always-cache.go:114-124 | exactly one response to the client, at most one exchange to answer it, and the whole new state |
| Serve.AlwaysCache.ReuseOrValidate | always-cache.go:126-143 | tries one entry: serves it, validates it, or does nothing |
| Serve.AlwaysCache.MustNotReuse | rfc9111/rfc9111.go:59-83 | the guards and checks give the specified decision |
| Serve.AlwaysCache.SendStoredResponse | always-cache.go:145-159 | the client's writer after a stored response |
| Serve.AlwaysCache.SendToClientIfValidationFailed | always-cache.go:161-171 | a 304 writes nothing to the client; anything else is sent and queued |
| Serve.AlwaysCache.Proxy | always-cache.go:208-228 | the reply goes to the client; a redirect is followed up before returning |
| Serve.AlwaysCache.WriteCache | always-cache.go:241-267 | writes the entry under its key iff it may be stored |
| Serve.AlwaysCache.UpdateResponseAndLocations | always-cache.go:199-206 | stores and follows up |
| Serve.AlwaysCache.SaveRequest | updater.go:120-131 | fetches and stores one request |
| Serve.AlwaysCache.RevalidateUris | updater.go:132-148 | the loop over URIs |
| Serve.AlwaysCache.InvalidateUris | updater.go:150-160 | the loop over URIs |
| Serve.AlwaysCache.SaveUpdates | updater.go:25-49 | the loop over immediate updates |
| Serve.AlwaysCache.GetInvalidateUris | rfc9111/4.4._invalidating-stored-responses.go:14-72 | the loop collects the specified URIs |
| Serve.AlwaysCache.GetCacheUpdates | pkg/cache-update/cache-update.go:25-40 | the loop collects the specified updates |
| Serve.AlwaysCache.UpdateEntry | updater.go:87-118 | the retry logic gives the specified state |
| Serve.AlwaysCache.UpdateCache | updater.go:57-75 | every iteration refreshes an earliest due entry or sleeps because none is due |
| Serve.ServedThenDrained | always-cache.go:199-228 | a request and the goroutines it starts amount to one state transformation |
| Serve.Provider.PutCE | cache/cache-provider.go:140-147 | keeps whole seconds |
| Serve.Provider.All | cache/cache-provider.go:93-118 | returns each entry with the prefix once |
| Serve.Provider.Oldest | cache/cache-provider.go:149-163 | an entry with the earliest positive expiry, or none |
| Protocol.StepKeepsInvariant | always-cache.go:114-267 | every step of every thread keeps the invariant |
| Protocol.ChoicesAreFree | always-cache.go:114-267 | in the runs considered the origin may answer anything `net/http` delivers, and a goroutine decides whenever it gets to it |
| Protocol.ArrivalsAreFree | always-cache.go:114-124 | and any request may arrive at any time and see the entries in any order |
| Protocol.ServeSoundness | always-cache.go:114-143 | in every run, every response sent from the store stems from an exchange that the cache's tests select, unchecked only if taken for fresh and no `no-cache` was found, checked only after a 304; and it satisfies section 4 of RFC 9111 iff nothing was overlooked |
| Protocol.SimpleExchangesMeetSection4 | always-cache.go:114-143 | if requests have single lines, the client sends no preconditions, and responses are plain and in time, the exchange behind every entry sent from the store satisfies section 4 |
| Protocol.UncheckedIsFreshByRfc | rfc9111/4.2.0-freshness.go:55-58 | in every run, what was sent unchecked was sent before its stale instant by the RFC's formulas and list members, unless something about time was misread |
| Protocol.EntriesAreLegitimate | always-cache.go:241-267 | in every run, every entry was made from an exchange that may be stored, under its own key, requested no later than received |
| Protocol.StoreStepIff | always-cache.go:241-267 | a goroutine that stores writes the reply iff it has any field and may legitimately be stored |
| Protocol.EntriesFallDue | updater.go:57-75 | in every run, a GET entry whose lifetime ends within a second makes an oldest entry due |
| Protocol.UpdaterTakesDue | updater.go:57-75 | whichever oldest due entry the updater takes, it asks the origin for it at once |
| Protocol.PollRemovesUndecodable | updater.go:87-118 | a key that does not decode is removed |
| Protocol.ExactlyOneAnswer | always-cache.go:114-171 | in every run, a client has one answer that never changes, or one job that will give it |
| Overlap.LateStoreReplacesNewer | always-cache.go:241-267 | a waiting goroutine with an older exchange puts it under the path's key in one move, whatever is there |
| Overlap.PathStaysCurrentIff | updater.go:25-49 | after any behaviour, all entries for a path stay at exchanges begun at `since` or later in every continuation iff they are so now and no thread may store an older one |
| Overlap.LaterReadsAreCurrent | always-cache.go:114-143 | then all clients that come later, in any interleaving, are sent for a GET of the path only what was asked for since |
| Overlap.ReadsSeeTheWriteAlways | updater.go:25-49 | a write that is handled while no other thread moves is seen by every later client in every continuation, if no older store was pending |
| Renewals.FollowUpMakesCurrent | always-cache.go:199-206 | the follow-up of a write, interleaved with anything, leaves every entry of an updated path asked for after the write was answered |
| Renewals.ReadsSeeTheWriteOverlapping | updater.go:25-49 | so every later client, in every run, sees a write whose follow-up is done |
| Renewals.FollowUpRenewsAffected | updater.go:13-24 | in every run, an affected URI's bare key holds nothing, or a response asked for after the unsafe request was answered, once the follow-up is done |
| Renewals.RefreshRenewsInPlace | updater.go:87-131 | in every run, a key the updater took is gone, or holds a response asked for since, when the updater is back at its loop head, if stored replies keep the key |
| LateExample.OlderThanTheWrite | always-cache.go:199-228 | a run in which a client is served what was asked for before a write that was answered and followed up |
| Sequential.FollowUpRuns | always-cache.go:199-206 | storing and following up an exchange is a run of one thread, to the state the sequential function gives |
| Sequential.HandleRuns | always-cache.go:114-228 | a request handled alone is a run that ends with the sequential state and exactly its answer, and leaves every other thread as it was |
| Sequential.RefreshRuns | updater.go:57-118 | refreshing an oldest due entry, with the pause and the retry, is a run of the updater's thread |
| Sequential.SequentialIsBehaviour | always-cache.go:114-267 | from an initial state, any requests, refreshes and waits that follow one another are a behaviour of the protocol ending in the sequential state |
| Example.HitsHappen | always-cache.go:114-143 | there is a behaviour in which a client is sent a stored response unchecked |
| Serializer.Message.StoredResponseToBytes | pkg/response-serializer/response.go:53-78 | the bytes written, and the bookkeeping fields set and removed in place |
| Serializer.StampedFields | pkg/response-serializer/response.go:67-73 | the two bookkeeping fields by name, and that they are gone afterwards |
| Serializer.CleanIff | pkg/response-serializer/response.go:51-64 | which request parts leave the delimiter as the first one |
| Serializer.SplitRecoversIff | pkg/response-serializer/response.go:81-90 | splitting recovers the two parts iff neither contains the delimiter and the first does not end like its beginning |
| Serializer.DashesBreakTheFormat | pkg/response-serializer/response.go:81-90 | a request part without delimiter that breaks the format |
| Serializer.SerializerRoundTrip | pkg/response-serializer/response.go:28-78 | the response comes back with whole-second times and without the bookkeeping fields |

## Left out

- SQLite: the provider is a map with literal-prefix search and atomic operations; SQL errors, `LIKE` wildcards and the row count behind `Has` are not modelled, and `Get`, `Put` and `AllKeys` are unused.
- `httputil.ReverseProxy`, transport, TLS, informational replies and trailers: an exchange is one request and one final reply, its body in any chunks.
- HTTP-date parsing, URI parsing and resolution, and the delay expression are arbitrary functions; a reference that does not parse (where the code dereferences nil) is not modelled.
- Serve.AlwaysCache.SaveUpdates: skips updates with a positive delay; they run in goroutines of their own and share the loop variable.
- ReadYourWrites.ReadsSeeTheWrite: is about events that follow one another; `Renewals.ReadsSeeTheWriteOverlapping` is about all interleavings.
- Serializer.SerializerRoundTrip: assumes of `net/http`'s writer and reader of responses that they round-trip for the response at hand.
- The clock is read once for each decision; the several readings within one freshness computation are taken as one.
- Aliasing of header maps: the conditional request shares the client's header map, so what follows up a validation uses the conditional request; the model passes that request on as a value, and so it treats the headers that `AddAgeHeader` and the recorder change.
- Reason phrases: only those of the codes the cache itself mentions are printed; the reader discards them.
- `strings.ToLower` beyond ASCII: names that matter are tokens.
- Age text: the rounding of floating-point seconds is half to even on exact nanoseconds, without the sign of a rounded-away negative age.
- System.Section4: stale responses that section 4.2.4 lets a cache send, heuristic lifetimes, and request directives, none of which the code uses, count for nothing.
- CacheKey.MatchMeetsSection41Iff: section 4.1 also lets a cache normalise values by the syntax of their field, which this one does not; the relation it is measured against combines lines and does no more.
- POST bodies, 304 header freshening and cross-origin filtering of Location, which the code does not implement.
- Purging of Vary variants: invalidation and revalidation act on the bare key, and nothing is claimed of other variants.
- `ConstructReusableResponse`, `ConstructDownstreamResponse`, `GetForwardRequest`, `getResponses`, `updateAll`, Cache-Status formatting and logging, which are unused or would only add easy members.
- Freshness.MachineAgeIsRfcAge: claims nothing beyond one century and 2^31 seconds of Age; the wrap-around without a Date is given exactly by `Freshness.DatelessAge`.
