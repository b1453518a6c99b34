/** The EmailProvidersStatus entity: the circuit breaker over a pool of email
    providers, as an object whose operations update its fields in place. */
module Consumer {
  import opened Sequences
  import opened ProviderHealth

  class EmailProvidersStatus {
    /** The providers currently in rotation. */
    var emailProviders: set<string>
    /** Set until TryAddProviders has seeded `emailProviders` once. */
    var isFirstTimeToInit: bool
    /** The current rolling window of failures, per provider. */
    var failureWindow: map<string, seq<FailureRequest>>
    /** The providers out of rotation, each with the time it becomes usable again. */
    var disabledProviders: seq<DisabledItem>
    /** Threshold, time window, disable period and supported providers. */
    const settings: ProvidersSettings

    ghost function State(): ProvidersState
      reads this
    {
      ProvidersState(emailProviders, isFirstTimeToInit, failureWindow, disabledProviders)
    }

    ghost predicate Valid()
      reads this
    {
      Inv(State())
    }

    constructor (settings: ProvidersSettings)
      ensures Valid() && this.settings == settings
      ensures State() == StateAfterTryAddProviders(InitialState, settings.supportedProviders)
      ensures emailProviders == Elements(settings.supportedProviders)
    {
      this.settings := settings;
      emailProviders := {};
      isFirstTimeToInit := true;
      failureWindow := map[];
      disabledProviders := [];
      new;
      TryAddProviders();
      InitialisedStateIsValid(settings.supportedProviders);
    }

    /** Seeds the enabled providers from the configuration, the first time only. */
    method TryAddProviders()
      modifies this
      ensures State() == StateAfterTryAddProviders(old(State()), settings.supportedProviders)
      ensures old(Valid()) ==> Valid()
    {
      if isFirstTimeToInit {
        var list := settings.supportedProviders;
        var i := 0;
        while i < |list|
          invariant 0 <= i <= |list|
          invariant emailProviders == old(emailProviders) + Elements(list[..i])
          invariant isFirstTimeToInit && failureWindow == old(failureWindow)
          invariant disabledProviders == old(disabledProviders)
        {
          assert list[..i + 1] == list[..i] + [list[i]];
          emailProviders := emailProviders + {list[i]};
          i := i + 1;
        }
        assert list[..i] == list;
        isFirstTimeToInit := false;
      }
    }

    /** The first disabled entry for `name`, if any (`FirstOrDefault`). */
    static function FindDisabled(ds: seq<DisabledItem>, name: string): (r: Option<DisabledItem>)
      ensures r.None? <==> name !in Names(ds)
      ensures r.Some? ==> r.value in ds && r.value.name == name
      ensures r.Some? ==> exists i :: 0 <= i < |ds| && ds[i] == r.value && forall j :: 0 <= j < i ==> ds[j].name != name
    {
      if ds == [] then None
      else if ds[0].name == name then Some(ds[0])
      else
        assert ds == [ds[0]] + ds[1..];
        var r := FindDisabled(ds[1..], name);
        assert r.Some? ==> exists i :: 0 <= i < |ds| && ds[i] == r.value && forall j :: 0 <= j < i ==> ds[j].name != name by {
          if r.Some? {
            var i :| 0 <= i < |ds[1..]| && ds[1..][i] == r.value && forall j :: 0 <= j < i ==> ds[1..][j].name != name;
            assert ds[i + 1] == r.value && forall j :: 0 <= j < i + 1 ==> ds[j].name != name;
          }
        }
        r
    }

    /** Records a failure of `req.providerName` at `req.happenedAt`, observed by
        the clock at `now`, and trips the provider when the threshold is reached. */
    method AddFailure(req: FailureRequest, now: int)
      modifies this
      ensures State() == StateAfterAddFailure(old(State()), req, settings, now)
      ensures old(Valid()) ==> Valid()
    {
      ghost var before := State();
      var state := FindDisabled(disabledProviders, req.providerName);
      if state.Some? {
        assert StateAfterAddFailure(before, req, settings, now) == before;
        return;
      }
      var p := req.providerName;
      assert p !in Names(before.disabledProviders);
      var list: seq<FailureRequest>;
      if p in failureWindow {
        list := failureWindow[p] + [req];
      } else {
        list := [req];
        assert list == Lookup(before.failureWindow, p) + [req];
      }
      var cutoff := req.happenedAt - settings.timeWindowInSeconds;
      failureWindow := failureWindow[p := Prune(list, cutoff)];
      ghost var recorded := before.(failureWindow := failureWindow);
      if |failureWindow[p]| >= settings.threshold {
        ghost var tripped := recorded.(emailProviders := before.emailProviders - {p},
                                       disabledProviders := before.disabledProviders + [DisabledItem(p, now + settings.disablePeriod)]);
        assert StateAfterAddFailure(before, req, settings, now) == tripped;
        emailProviders := emailProviders - {p};
        var period := now + settings.disablePeriod;
        disabledProviders := disabledProviders + [DisabledItem(p, period)];
        assert State() == tripped;
      } else {
        assert State() == recorded;
        assert StateAfterAddFailure(before, req, settings, now) == State();
      }
      AddFailurePreservesInv(before, req, settings, now);
    }

    /** Re-enables every disabled provider whose due time is at or before `now`. */
    method CheckDisabledProvidersStatus(now: int)
      modifies this
      ensures State() == StateAfterCheck(old(State()), now)
      ensures old(Valid()) ==> Valid()
    {
      ghost var before := State();
      var itemsToEnable := Due(disabledProviders, now);
      var i := 0;
      DropNoDue(before.disabledProviders, now);
      while i < |itemsToEnable|
        invariant 0 <= i <= |itemsToEnable|
        invariant disabledProviders == DropDue(before.disabledProviders, now, i)
        invariant emailProviders == before.emailProviders + Names(itemsToEnable[..i])
        invariant failureWindow == before.failureWindow && isFirstTimeToInit == before.isFirstTimeToInit
      {
        var itemToEnable := itemsToEnable[i];
        RemoveNextDue(before.disabledProviders, now, i);
        disabledProviders := RemoveFirst(disabledProviders, itemToEnable);
        assert itemsToEnable[..i + 1] == itemsToEnable[..i] + [itemToEnable];
        NamesAppend(itemsToEnable[..i], itemToEnable);
        emailProviders := emailProviders + {itemToEnable.name};
        i := i + 1;
      }
      assert itemsToEnable[..i] == itemsToEnable;
      DropAllDue(before.disabledProviders, now);
      assert State() == StateAfterCheck(before, now);
      CheckPreservesInv(before, now);
    }

    /** Some enabled provider, or none when every provider is disabled. */
    method Get() returns (provider: Option<string>)
      ensures provider.None? <==> emailProviders == {}
      ensures provider.Some? ==> provider.value in emailProviders
    {
      if emailProviders == {} {
        provider := None;
      } else {
        var p :| p in emailProviders;
        provider := Some(p);
      }
    }
  }
}
