# EmailProvidersStatus circuit breaker, in Dafny

This project models the circuit breaker that the email consumer keeps for
its pool of email providers: the `EmailProvidersStatus` entity in
`EmailService.Consumer/EmailProvidersStatus.cs`. One entity holds four
pieces of state:

- `emailProviders`: the set of providers currently in rotation;
- `isFirstTimeToInit`: the one-shot flag that guards seeding that set from
  the configured `SupportedProviders`;
- `failureWindow`: for each provider, the failures still inside the
  sliding time window;
- `disabledProviders`: the providers taken out of rotation, each with the
  due time at which it comes back.

Its operations are the following:

- `TryAddProviders` seeds the set once.
- `AddFailure` records a failure. It ignores failures of a provider that is
  already disabled. Otherwise it appends the failure and prunes records older
  than `HappenedAt - TimeWindowInSeconds`. When the pruned count reaches
  `Threshold`, it moves the provider from the enabled set to the disabled list,
  due at `now + DisablePeriod`.
- `CheckDisabledProvidersStatus` re-enables every disabled entry whose due time
  has passed.
- `Get` returns some enabled provider, or none.

The files are:

- `status.dfy` (module `Consumer`): the class `EmailProvidersStatus`. It has the
  four fields, the settings as a constant field, and the four operations as
  methods that update the fields in place. Each mutating method ensures that the
  new `State()` equals a function of the old one, and that the class invariant
  `Valid()` is kept. The sweep keeps the source's loop that removes each due item
  with `List.Remove`.
- `provider_health.dfy` (module `ProviderHealth`): the state as a value
  (`ProvidersState`) and the state each operation produces
  (`StateAfterTryAddProviders`, `StateAfterAddFailure`, `StateAfterCheck`). It
  also holds the lemmas that state what those operations promise, and the
  invariant `Inv`:
  - the entity is initialised;
  - no two disabled entries share a name;
  - no provider is both enabled and disabled;
  - every failure record is filed under its own provider.
- `sequences.dfy` (module `Sequences`): the filtering done by `RemoveAll` and
  `Where`, the single removal done by `List.Remove`, and order-preserving
  sub-sequences.
- `scenarios.dfy` (module `Scenarios`): two worked examples. In the first,
  provider A is tripped by three failures and restored by a sweep. In the second,
  a stale failure is pruned.

Timestamps and durations are whole seconds (`int`). The two reads of the
wall clock become a `now` parameter:

- in `AddFailure` (line 125), where the clock fixes the due time;
- in `CheckDisabledProvidersStatus` (line 137).

The configuration (`TimeWindowInSeconds`, `Threshold`, `DisablePeriod`,
`SupportedProviders`) is a `ProvidersSettings` value given to the constructor.

Where the intended behaviour and the code differ, the model follows the code:

- The due time of a disabled provider is the clock at the moment the failure is
  processed plus `DisablePeriod`, not the failure's own `HappenedAt` plus the
  period. The worked example in `scenarios.dfy` processes each failure at the
  time it happened, so the two coincide there.
- Configuration values are not validated. A `Threshold` of zero or less trips a
  provider on its first failure. With a negative window the new failure is pruned
  at once, so `AddFailureWindow` promises the new record is kept only for a
  non-negative window.
- A provider that was never configured is not rejected. Once its failures reach
  `Threshold` it is disabled (`AddFailureThreshold`). A sweep past its due time
  then enables it (`CheckMovesDue`).

## Model

| member | source | states |
|---|---|---|
| `Consumer.EmailProvidersStatus.constructor` | EmailService.Consumer/EmailProvidersStatus.cs:45-76 | A new entity starts from the field initialisers and runs TryAddProviders. Its enabled set is then exactly the supported providers, and the invariant holds. |
| `Consumer.EmailProvidersStatus.TryAddProviders` | EmailService.Consumer/EmailProvidersStatus.cs:78-87 | The loop adds every supported provider while the flag is set and then clears the flag. The new state is `StateAfterTryAddProviders` of the old one, and the invariant is kept. |
| `ProviderHealth.TryAddProvidersFirstTime` | EmailService.Consumer/EmailProvidersStatus.cs:81-86 | When the flag is set, every supported provider becomes enabled and the flag is cleared. The failure windows and the disabled list are unchanged. |
| `ProviderHealth.TryAddProvidersLater` | EmailService.Consumer/EmailProvidersStatus.cs:80-86 | When the flag is clear, the call changes nothing. In particular it does not restore a provider that AddFailure disabled. |
| `ProviderHealth.TryAddProvidersIdempotent` | EmailService.Consumer/EmailProvidersStatus.cs:81-86 | Calling the initialiser twice is the same as calling it once. |
| `ProviderHealth.InitialisedStateIsValid` | EmailService.Consumer/EmailProvidersStatus.cs:30-39 | From the field initialisers, one TryAddProviders enables exactly the supported providers. The result satisfies the invariant. |
| `Consumer.EmailProvidersStatus.FindDisabled` | EmailService.Consumer/EmailProvidersStatus.cs:92 | `FirstOrDefault` finds nothing exactly when no disabled entry has the name. When it finds an entry, that entry is in the list, has the name, and no earlier entry has the name. |
| `Consumer.EmailProvidersStatus.AddFailure` | EmailService.Consumer/EmailProvidersStatus.cs:90-133 | The method's in-place updates produce `StateAfterAddFailure` of the old state, and the invariant is kept. |
| `ProviderHealth.AddFailureIgnoresDisabled` | EmailService.Consumer/EmailProvidersStatus.cs:92-97 | A failure of a provider that already has a disabled entry leaves the whole state unchanged. |
| `ProviderHealth.AddFailureWindow` | EmailService.Consumer/EmailProvidersStatus.cs:99-114 | For a provider that is not disabled, the provider gets a failure list. That list holds the new record when the window is non-negative. Every kept record has `happenedAt >= HappenedAt - window`. Every in-window old record is kept. The kept list is a subsequence, in original order, of the old list plus the new record. No other provider's list changes. |
| `ProviderHealth.AddFailureKeepsEveryCopy` | EmailService.Consumer/EmailProvidersStatus.cs:111-119 | The count compared with the threshold includes every copy of an in-window record, even equal ones such as two failures in the same second. No copy of an older record remains. |
| `ProviderHealth.AddFailureThreshold` | EmailService.Consumer/EmailProvidersStatus.cs:119-131 | When the pruned count reaches the threshold, the provider leaves the enabled set and exactly one entry `(p, now + DisablePeriod)` is appended. Otherwise the enabled set and the disabled list are unchanged. |
| `ProviderHealth.AddFailurePreservesInv` | EmailService.Consumer/EmailProvidersStatus.cs:92-126 | AddFailure keeps the invariant: disabled names stay unique because of the early return, nothing is both enabled and disabled, and records stay filed under their own provider. |
| `ProviderHealth.AddFailureKeepsKnown` | EmailService.Consumer/EmailProvidersStatus.cs:119-127 | AddFailure never makes a provider unknown (neither enabled nor disabled). Only the reported provider can become known. |
| `Consumer.EmailProvidersStatus.CheckDisabledProvidersStatus` | EmailService.Consumer/EmailProvidersStatus.cs:135-145 | The `foreach` loop removes each due item with `List.Remove` and enables its name. The result is `StateAfterCheck` of the old state, and the invariant is kept. |
| `ProviderHealth.RemoveNextDue` | EmailService.Consumer/EmailProvidersStatus.cs:139-142 | Removing the next due item by value removes exactly that due entry, and no entry that is not due. |
| `ProviderHealth.DropAllDue` | EmailService.Consumer/EmailProvidersStatus.cs:138-143 | After every due item has been removed, exactly the entries not yet due remain, in their original order. |
| `ProviderHealth.CheckMovesDue` | EmailService.Consumer/EmailProvidersStatus.cs:137-143 | The sweep re-enables the name of every entry with `DueTime <= now` and removes that entry. Every provider that was already enabled stays enabled. It keeps exactly the entries not yet due, each with its original number of copies and in order, and enables no other name. The failure windows and the flag are untouched. |
| `ProviderHealth.CheckIdempotent` | EmailService.Consumer/EmailProvidersStatus.cs:137-143 | A second sweep with the same `now` changes nothing. |
| `ProviderHealth.CheckPreservesInv` | EmailService.Consumer/EmailProvidersStatus.cs:138-143 | The sweep keeps the invariant: disabled names stay unique and no provider is both enabled and disabled. |
| `ProviderHealth.CheckKeepsKnown` | EmailService.Consumer/EmailProvidersStatus.cs:139-143 | The sweep only moves providers between the two collections. The set of known providers is unchanged. |
| `Consumer.EmailProvidersStatus.Get` | EmailService.Consumer/EmailProvidersStatus.cs:147-150 | Returns none exactly when no provider is enabled, and otherwise a member of the enabled set. It modifies nothing. |
| `Sequences.Filter` | EmailService.Consumer/EmailProvidersStatus.cs:114 | `RemoveAll` or `Where` keeps exactly the elements that pass the test, and never grows the list. |
| `Sequences.FilterMultiset` | EmailService.Consumer/EmailProvidersStatus.cs:114 | `RemoveAll` keeps every copy of an element that passes the test and no copy of one that fails it. |
| `Sequences.FilterIsSubsequence` | EmailService.Consumer/EmailProvidersStatus.cs:114 | The elements that filtering keeps stay in their original order. |
| `Sequences.RemoveFirst` | EmailService.Consumer/EmailProvidersStatus.cs:141 | `List.Remove` shortens the list by one exactly when the item occurs in it. |
| `Sequences.RemoveFirstShape` | EmailService.Consumer/EmailProvidersStatus.cs:141 | `List.Remove` leaves the list unchanged when the item is absent. Otherwise it cuts out the first occurrence of the item, and everything before and after keeps its order. |
| `Sequences.RemoveFirstMultiset` | EmailService.Consumer/EmailProvidersStatus.cs:141 | `List.Remove` takes away exactly one copy of the item and nothing else. |
| `Scenarios.TripAndRecover` | EmailService.Consumer/EmailProvidersStatus.cs:90-143 | Settings: providers A and B, threshold 3, window 60, disable period 300. Failures of A at 0, 10 and 20 disable A until 320, leaving `{B}` enabled. A fourth failure at 30 is ignored. A sweep at 319 changes nothing, and a sweep at 320 restores `{A, B}`. |
| `Scenarios.StaleFailurePruned` | EmailService.Consumer/EmailProvidersStatus.cs:107-114 | With a 60-second window, a failure of A at 100 prunes the one at 0. A then counts one failure, not two. |

## Left out

- The constructor's fallbacks are left out: reading the settings from
  environment variables with `int.Parse`, and creating a logger when none is
  injected (lines 47-74). Settings are a value given to the constructor. A
  malformed or missing variable is not modelled.
- The Durable Functions host is left out: the static `Run` dispatch, the
  `IEmailProvidersStatus` interface, JSON snapshotting, and the host constructing
  the entity again on every load before it restores the persisted fields. Each
  object in the model is constructed once.
- Logging and `Entity.Current.EntityKey` are left out (lines 95, 118, 121 and
  130). They have no effect on the state.
- `Task` and `Task.FromResult` are left out. Every operation is synchronous.
- `DateTimeOffset` and `TimeSpan` are integer seconds. The range limits of
  `DateTimeOffset` are not modelled.
- `Consumer.EmailProvidersStatus.Get`: `HashSet.FirstOrDefault` returns an
  element in the hash set's internal order. The model returns an arbitrary
  member, and `Option.None` stands for `null`.
- `Consumer.EmailProvidersStatus.CheckDisabledProvidersStatus`: the source
  removes each `DisabledEmailProviderItem` by reference. The model removes it by
  value. `RemoveNextDue` shows that removal by value takes out exactly the next
  due entry, so the result is the same.
- Concurrency is not modelled. Operations on one entity are serialised by the
  host.
