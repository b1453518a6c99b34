/** The circuit-breaker state of one EmailProvidersStatus entity as a value, the
    state each of its operations produces, and what those operations promise.
    Timestamps are whole seconds; the clock is the caller's `now`. */
module ProviderHealth {
  import opened Sequences

  datatype Option<T> = None | Some(value: T)

  /** A failure reported against one provider (FailureRequest). */
  datatype FailureRequest = FailureRequest(providerName: string, happenedAt: int)

  /** A provider taken out of rotation until `dueTime` (DisabledEmailProviderItem). */
  datatype DisabledItem = DisabledItem(name: string, dueTime: int)

  /** The EmailProvidersSettings the entity is configured with. */
  datatype ProvidersSettings = ProvidersSettings(
    timeWindowInSeconds: int,
    threshold: int,
    disablePeriod: int,
    supportedProviders: seq<string>)

  /** The four persisted fields of an EmailProvidersStatus entity. */
  datatype ProvidersState = ProvidersState(
    emailProviders: set<string>,
    isFirstTimeToInit: bool,
    failureWindow: map<string, seq<FailureRequest>>,
    disabledProviders: seq<DisabledItem>)

  /** The field initialisers of a new entity, before TryAddProviders runs. */
  const InitialState := ProvidersState({}, true, map[], [])

  function Elements(xs: seq<string>): set<string>
  {
    set x | x in xs
  }

  /** The provider names that have an entry in `ds`. */
  function Names(ds: seq<DisabledItem>): set<string>
  {
    set d | d in ds :: d.name
  }

  lemma NamesAppend(ds: seq<DisabledItem>, d: DisabledItem)
    ensures Names(ds + [d]) == Names(ds) + {d.name}
  {
    assert d in ds + [d];
    assert forall e :: e in ds ==> e in ds + [d];
  }

  ghost predicate NoDuplicateNames(ds: seq<DisabledItem>)
  {
    forall i, j :: 0 <= i < j < |ds| ==> ds[i].name != ds[j].name
  }

  /** Every record kept under provider `p` is a failure of `p`. */
  ghost predicate WindowKeyed(w: map<string, seq<FailureRequest>>)
  {
    forall p, r :: p in w && r in w[p] ==> r.providerName == p
  }

  /** The invariant of every constructed entity: initialised, no provider
      disabled twice, no provider both enabled and disabled, and failure
      records filed under their own provider. */
  ghost predicate Inv(s: ProvidersState)
  {
    && !s.isFirstTimeToInit
    && NoDuplicateNames(s.disabledProviders)
    && s.emailProviders !! Names(s.disabledProviders)
    && WindowKeyed(s.failureWindow)
  }

  /** Every provider the entity knows of, enabled or disabled. */
  function Known(s: ProvidersState): set<string>
  {
    s.emailProviders + Names(s.disabledProviders)
  }

  // ---------------------------------------------------------------------------
  // TryAddProviders

  function StateAfterTryAddProviders(s: ProvidersState, supported: seq<string>): ProvidersState
  {
    if s.isFirstTimeToInit then
      s.(emailProviders := s.emailProviders + Elements(supported), isFirstTimeToInit := false)
    else
      s
  }

  /** On the first call every supported provider becomes enabled and the flag
      is cleared; nothing else changes. */
  lemma TryAddProvidersFirstTime(s: ProvidersState, supported: seq<string>)
    requires s.isFirstTimeToInit
    ensures var t := StateAfterTryAddProviders(s, supported);
      && t.emailProviders == s.emailProviders + Elements(supported)
      && (forall x :: x in supported ==> x in t.emailProviders)
      && !t.isFirstTimeToInit
      && t.failureWindow == s.failureWindow
      && t.disabledProviders == s.disabledProviders
  {
  }

  /** Once the flag is clear the call is a no-op: in particular it does not
      bring back a provider that AddFailure took out of rotation. */
  lemma TryAddProvidersLater(s: ProvidersState, supported: seq<string>)
    requires !s.isFirstTimeToInit
    ensures StateAfterTryAddProviders(s, supported) == s
  {
  }

  /** A second call never re-seeds the providers. */
  lemma TryAddProvidersIdempotent(s: ProvidersState, supported: seq<string>)
    ensures var t := StateAfterTryAddProviders(s, supported);
      StateAfterTryAddProviders(t, supported) == t
  {
  }

  /** A new entity, once initialised, enables exactly the supported providers
      and satisfies the invariant. */
  lemma InitialisedStateIsValid(supported: seq<string>)
    ensures var t := StateAfterTryAddProviders(InitialState, supported);
      Inv(t) && t.emailProviders == Elements(supported) && Known(t) == Elements(supported)
  {
  }

  // ---------------------------------------------------------------------------
  // AddFailure

  /** The records `List.RemoveAll(p => p.HappenedAt < cutoff)` leaves. */
  function Prune(records: seq<FailureRequest>, cutoff: int): seq<FailureRequest>
  {
    Filter(records, InWindow(cutoff))
  }

  function InWindow(cutoff: int): FailureRequest -> bool
  {
    (r: FailureRequest) => r.happenedAt >= cutoff
  }

  /** The failure list of `p`, empty when the dictionary has no entry for it. */
  function Lookup(w: map<string, seq<FailureRequest>>, p: string): seq<FailureRequest>
  {
    if p in w then w[p] else []
  }

  function StateAfterAddFailure(s: ProvidersState, req: FailureRequest, cfg: ProvidersSettings, now: int): ProvidersState
  {
    var p := req.providerName;
    if p in Names(s.disabledProviders) then
      s
    else
      var kept := Prune(Lookup(s.failureWindow, p) + [req], req.happenedAt - cfg.timeWindowInSeconds);
      var recorded := s.(failureWindow := s.failureWindow[p := kept]);
      if |kept| >= cfg.threshold then
        recorded.(emailProviders := s.emailProviders - {p},
                  disabledProviders := s.disabledProviders + [DisabledItem(p, now + cfg.disablePeriod)])
      else
        recorded
  }

  /** A failure reported for a provider that is already disabled changes nothing. */
  lemma AddFailureIgnoresDisabled(s: ProvidersState, req: FailureRequest, cfg: ProvidersSettings, now: int)
    requires exists d :: d in s.disabledProviders && d.name == req.providerName
    ensures StateAfterAddFailure(s, req, cfg, now) == s
  {
  }

  /** For a provider that is not disabled: the new record is kept (for a
      non-negative window), every kept record lies in the window ending at the
      new failure, the kept records are exactly the in-window ones of the old
      list plus the new one, in their original order, and no other provider's
      list changes. */
  lemma {:induction false} AddFailureWindow(s: ProvidersState, req: FailureRequest, cfg: ProvidersSettings, now: int)
    requires req.providerName !in Names(s.disabledProviders)
    ensures var p, t := req.providerName, StateAfterAddFailure(s, req, cfg, now);
      var cutoff := req.happenedAt - cfg.timeWindowInSeconds;
      && p in t.failureWindow
      && (cfg.timeWindowInSeconds >= 0 ==> req in t.failureWindow[p])
      && (forall r :: r in t.failureWindow[p] ==> r.happenedAt >= cutoff)
      && (forall r :: r in Lookup(s.failureWindow, p) && r.happenedAt >= cutoff ==> r in t.failureWindow[p])
      && t.failureWindow[p] == Prune(Lookup(s.failureWindow, p), cutoff) + Prune([req], cutoff)
      && SubsequenceOf(t.failureWindow[p], Lookup(s.failureWindow, p) + [req])
      && (forall q :: q != p ==> Lookup(t.failureWindow, q) == Lookup(s.failureWindow, q))
      && t.failureWindow.Keys == s.failureWindow.Keys + {p}
  {
    var p, cutoff := req.providerName, req.happenedAt - cfg.timeWindowInSeconds;
    var records := Lookup(s.failureWindow, p);
    AddFailureFilesPruned(s, req, cfg, now);
    FilterAppend(records, [req], InWindow(cutoff));
    FilterIsSubsequence(records + [req], InWindow(cutoff));
  }

  /** The count compared with the threshold counts every in-window failure,
      including equal ones: each copy of an in-window record is kept, and no
      copy of an older one. */
  lemma AddFailureKeepsEveryCopy(s: ProvidersState, req: FailureRequest, cfg: ProvidersSettings, now: int)
    requires req.providerName !in Names(s.disabledProviders)
    ensures var p, t := req.providerName, StateAfterAddFailure(s, req, cfg, now);
      var cutoff := req.happenedAt - cfg.timeWindowInSeconds;
      forall r :: multiset(t.failureWindow[p])[r]
        == if r.happenedAt >= cutoff then multiset(Lookup(s.failureWindow, p) + [req])[r] else 0
  {
    var cutoff := req.happenedAt - cfg.timeWindowInSeconds;
    AddFailureFilesPruned(s, req, cfg, now);
    FilterMultiset(Lookup(s.failureWindow, req.providerName) + [req], InWindow(cutoff));
  }

  /** The failure windows after AddFailure for a provider that is not disabled. */
  lemma AddFailureFilesPruned(s: ProvidersState, req: FailureRequest, cfg: ProvidersSettings, now: int)
    requires req.providerName !in Names(s.disabledProviders)
    ensures var p := req.providerName;
      StateAfterAddFailure(s, req, cfg, now).failureWindow
        == s.failureWindow[p := Prune(Lookup(s.failureWindow, p) + [req], req.happenedAt - cfg.timeWindowInSeconds)]
  {
  }

  /** For a provider that is not disabled, the provider is tripped exactly when
      its pruned count reaches the threshold: it then leaves the enabled set and
      exactly one entry due at `now + disablePeriod` is appended; otherwise the
      enabled set and the disabled list are unchanged. */
  lemma AddFailureThreshold(s: ProvidersState, req: FailureRequest, cfg: ProvidersSettings, now: int)
    requires req.providerName !in Names(s.disabledProviders)
    ensures var p, t := req.providerName, StateAfterAddFailure(s, req, cfg, now);
      var count := |t.failureWindow[p]|;
      && t.isFirstTimeToInit == s.isFirstTimeToInit
      && (count >= cfg.threshold ==>
            && t.emailProviders == s.emailProviders - {p}
            && p !in t.emailProviders
            && t.disabledProviders == s.disabledProviders + [DisabledItem(p, now + cfg.disablePeriod)])
      && (count < cfg.threshold ==>
            t.emailProviders == s.emailProviders && t.disabledProviders == s.disabledProviders)
  {
  }

  /** The last entry's name is not among the earlier ones, so appending it keeps names unique. */
  lemma {:induction false} AppendKeepsNamesUnique(ds: seq<DisabledItem>, d: DisabledItem)
    requires NoDuplicateNames(ds) && d.name !in Names(ds)
    ensures NoDuplicateNames(ds + [d])
  {
    var e := ds + [d];
    forall i, j | 0 <= i < j < |e|
      ensures e[i].name != e[j].name
    {
      if j == |ds| {
        assert e[i] in ds;
      }
    }
  }

  lemma AddFailurePreservesInv(s: ProvidersState, req: FailureRequest, cfg: ProvidersSettings, now: int)
    ensures Inv(s) ==> Inv(StateAfterAddFailure(s, req, cfg, now))
  {
    var p := req.providerName;
    if Inv(s) && p !in Names(s.disabledProviders) {
      var t := StateAfterAddFailure(s, req, cfg, now);
      var d := DisabledItem(p, now + cfg.disablePeriod);
      AppendKeepsNamesUnique(s.disabledProviders, d);
      NamesAppend(s.disabledProviders, d);
      forall q, r | q in t.failureWindow && r in t.failureWindow[q]
        ensures r.providerName == q
      {
        if q == p {
          assert r in Lookup(s.failureWindow, p) + [req];
        } else {
          assert r in s.failureWindow[q];
        }
      }
    }
  }

  /** AddFailure never forgets a provider: everything known before is still
      known, and only the reported provider can become known. */
  lemma AddFailureKeepsKnown(s: ProvidersState, req: FailureRequest, cfg: ProvidersSettings, now: int)
    ensures Known(s) <= Known(StateAfterAddFailure(s, req, cfg, now)) <= Known(s) + {req.providerName}
  {
    var p := req.providerName;
    var d := DisabledItem(p, now + cfg.disablePeriod);
    NamesAppend(s.disabledProviders, d);
  }

  // ---------------------------------------------------------------------------
  // CheckDisabledProvidersStatus

  /** The entries whose due time has passed at `now`. */
  function Due(ds: seq<DisabledItem>, now: int): seq<DisabledItem>
  {
    Filter(ds, IsDue(now))
  }

  function IsDue(now: int): DisabledItem -> bool
  {
    (d: DisabledItem) => d.dueTime <= now
  }

  /** The entries still disabled at `now`. */
  function Pending(ds: seq<DisabledItem>, now: int): seq<DisabledItem>
  {
    Filter(ds, IsPending(now))
  }

  function IsPending(now: int): DisabledItem -> bool
  {
    (d: DisabledItem) => d.dueTime > now
  }

  function StateAfterCheck(s: ProvidersState, now: int): ProvidersState
  {
    s.(emailProviders := s.emailProviders + Names(Due(s.disabledProviders, now)),
       disabledProviders := Pending(s.disabledProviders, now))
  }

  /** The sweep re-enables exactly the entries that are due, keeps every
      provider that was already enabled, keeps the other entries, every copy
      and in their original order, and leaves the failure windows alone. */
  lemma CheckMovesDue(s: ProvidersState, now: int)
    ensures var t := StateAfterCheck(s, now);
      && (forall d :: d in s.disabledProviders && d.dueTime <= now ==> d.name in t.emailProviders && d !in t.disabledProviders)
      && (forall d :: d in t.disabledProviders <==> d in s.disabledProviders && d.dueTime > now)
      && SubsequenceOf(t.disabledProviders, s.disabledProviders)
      && (forall d :: multiset(t.disabledProviders)[d] == if d.dueTime > now then multiset(s.disabledProviders)[d] else 0)
      && s.emailProviders <= t.emailProviders
      && (forall x :: x in t.emailProviders ==> x in s.emailProviders || exists d :: d in s.disabledProviders && d.dueTime <= now && d.name == x)
      && t.failureWindow == s.failureWindow
      && t.isFirstTimeToInit == s.isFirstTimeToInit
  {
    FilterIsSubsequence(s.disabledProviders, IsPending(now));
    FilterMultiset(s.disabledProviders, IsPending(now));
  }

  /** A second sweep at the same time changes nothing. */
  lemma CheckIdempotent(s: ProvidersState, now: int)
    ensures var t := StateAfterCheck(s, now);
      StateAfterCheck(t, now) == t
  {
    var pending := Pending(s.disabledProviders, now);
    FilterKeepsNone(pending, IsDue(now));
    FilterTwice(s.disabledProviders, IsPending(now));
  }

  /** With unique names, no provider is both due and still pending. */
  lemma {:induction false} DueAndPendingNamesDisjoint(ds: seq<DisabledItem>, now: int)
    requires NoDuplicateNames(ds)
    ensures Names(Due(ds, now)) !! Names(Pending(ds, now))
  {
    forall d, e | d in Due(ds, now) && e in Pending(ds, now)
      ensures d.name != e.name
    {
      var i :| 0 <= i < |ds| && ds[i] == d;
      var j :| 0 <= j < |ds| && ds[j] == e;
      assert i != j;
    }
  }

  /** Filtering keeps names unique. */
  lemma {:induction false} FilterKeepsNamesUnique(ds: seq<DisabledItem>, keep: DisabledItem -> bool)
    requires NoDuplicateNames(ds)
    ensures NoDuplicateNames(Filter(ds, keep))
  {
    if ds != [] {
      var tail := ds[1..];
      assert NoDuplicateNames(tail) by {
        forall i, j | 0 <= i < j < |tail|
          ensures tail[i].name != tail[j].name
        {
          assert tail[i] == ds[i + 1] && tail[j] == ds[j + 1];
        }
      }
      FilterKeepsNamesUnique(tail, keep);
      if keep(ds[0]) {
        var r := Filter(ds, keep);
        forall i, j | 0 <= i < j < |r|
          ensures r[i].name != r[j].name
        {
          if i == 0 {
            assert r[j] in Filter(tail, keep);
            var k :| 0 <= k < |tail| && tail[k] == r[j];
            assert ds[k + 1] == r[j];
          } else {
            assert r[i] == Filter(tail, keep)[i - 1] && r[j] == Filter(tail, keep)[j - 1];
          }
        }
      }
    }
  }

  lemma CheckPreservesInv(s: ProvidersState, now: int)
    ensures Inv(s) ==> Inv(StateAfterCheck(s, now))
  {
    if Inv(s) {
      DueAndPendingNamesDisjoint(s.disabledProviders, now);
      FilterKeepsNamesUnique(s.disabledProviders, IsPending(now));
    }
  }

  /** The sweep moves providers between the two collections but never loses one. */
  lemma CheckKeepsKnown(s: ProvidersState, now: int)
    ensures Known(StateAfterCheck(s, now)) == Known(s)
  {
    var ds := s.disabledProviders;
    forall x | x in Names(ds)
      ensures x in Known(StateAfterCheck(s, now))
    {
      var d :| d in ds && d.name == x;
      if d.dueTime <= now {
        assert d in Due(ds, now);
      } else {
        assert d in Pending(ds, now);
      }
    }
  }

  /** `ds` without its first `k` due entries: the disabled list after the
      sweep loop of CheckDisabledProvidersStatus has removed `k` items. */
  function DropDue(ds: seq<DisabledItem>, now: int, k: nat): seq<DisabledItem>
  {
    if ds == [] then []
    else if ds[0].dueTime <= now && k > 0 then DropDue(ds[1..], now, k - 1)
    else [ds[0]] + DropDue(ds[1..], now, k)
  }

  lemma {:induction false} DropNoDue(ds: seq<DisabledItem>, now: int)
    ensures DropDue(ds, now, 0) == ds
  {
    if ds != [] {
      DropNoDue(ds[1..], now);
    }
  }

  /** Removing (as `List.Remove` does) the next due item drops one more due entry. */
  lemma {:induction false} RemoveNextDue(ds: seq<DisabledItem>, now: int, k: nat)
    requires k < |Due(ds, now)|
    ensures RemoveFirst(DropDue(ds, now, k), Due(ds, now)[k]) == DropDue(ds, now, k + 1)
  {
    var x, tail := ds[0], ds[1..];
    if x.dueTime <= now {
      if k == 0 {
        DropNoDue(tail, now);
      } else {
        RemoveNextDue(tail, now, k - 1);
      }
    } else {
      RemoveNextDue(tail, now, k);
    }
  }

  /** Dropping every due entry leaves the pending ones. */
  lemma {:induction false} DropAllDue(ds: seq<DisabledItem>, now: int)
    ensures DropDue(ds, now, |Due(ds, now)|) == Pending(ds, now)
  {
    if ds != [] {
      DropAllDue(ds[1..], now);
    }
  }
}
