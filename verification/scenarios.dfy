/** Two worked examples: two providers, threshold 3, a 60-second
    window and a 300-second disable period, with each failure processed at the
    moment it happened. */
module Scenarios {
  import opened Sequences
  import opened ProviderHealth

  const Cfg := ProvidersSettings(60, 3, 300, ["A", "B"])

  /** Three failures of A within the window trip it until 320; a fourth is
      ignored; a sweep at 319 keeps it disabled and one at 320 restores it. */
  lemma TripAndRecover()
    ensures var s0 := StateAfterTryAddProviders(InitialState, Cfg.supportedProviders);
      var s1 := StateAfterAddFailure(s0, FailureRequest("A", 0), Cfg, 0);
      var s2 := StateAfterAddFailure(s1, FailureRequest("A", 10), Cfg, 10);
      var s3 := StateAfterAddFailure(s2, FailureRequest("A", 20), Cfg, 20);
      && s2.emailProviders == {"A", "B"}
      && s3.disabledProviders == [DisabledItem("A", 320)]
      && s3.emailProviders == {"B"}
      && StateAfterAddFailure(s3, FailureRequest("A", 30), Cfg, 30) == s3
      && StateAfterCheck(s3, 319) == s3
      && StateAfterCheck(s3, 320).emailProviders == {"A", "B"}
      && StateAfterCheck(s3, 320).disabledProviders == []
  {
    var r0, r1, r2 := FailureRequest("A", 0), FailureRequest("A", 10), FailureRequest("A", 20);
    var a := DisabledItem("A", 320);
    var s0 := StateAfterTryAddProviders(InitialState, Cfg.supportedProviders);
    assert Elements(["A", "B"]) == {"A", "B"};
    assert s0 == ProvidersState({"A", "B"}, false, map[], []);
    var s1 := StateAfterAddFailure(s0, r0, Cfg, 0);
    assert Prune([r0], -60) == [r0];
    assert s1 == ProvidersState({"A", "B"}, false, map["A" := [r0]], []);
    var s2 := StateAfterAddFailure(s1, r1, Cfg, 10);
    FilterKeepsAll([r0, r1], InWindow(-50));
    assert s2 == ProvidersState({"A", "B"}, false, map["A" := [r0, r1]], []);
    var s3 := StateAfterAddFailure(s2, r2, Cfg, 20);
    assert [r0, r1] + [r2] == [r0, r1, r2];
    FilterKeepsAll([r0, r1, r2], InWindow(-40));
    assert {"A", "B"} - {"A"} == {"B"};
    assert s3 == ProvidersState({"B"}, false, map["A" := [r0, r1, r2]], [a]);
    assert a in s3.disabledProviders;
    assert Due([a], 319) == [] && Pending([a], 319) == [a];
    assert Due([a], 320) == [a] && Pending([a], 320) == [];
    assert Names([a]) == {"A"};
  }

  /** A failure 100 seconds after the previous one prunes it: A counts one failure. */
  lemma StaleFailurePruned()
    ensures var s0 := StateAfterTryAddProviders(InitialState, Cfg.supportedProviders);
      var s1 := StateAfterAddFailure(s0, FailureRequest("A", 0), Cfg, 0);
      var s2 := StateAfterAddFailure(s1, FailureRequest("A", 100), Cfg, 100);
      s2.failureWindow["A"] == [FailureRequest("A", 100)]
  {
    var r0, r1 := FailureRequest("A", 0), FailureRequest("A", 100);
    var s0 := StateAfterTryAddProviders(InitialState, Cfg.supportedProviders);
    assert Elements(["A", "B"]) == {"A", "B"};
    var s1 := StateAfterAddFailure(s0, r0, Cfg, 0);
    assert Prune([r0], -60) == [r0];
    assert s1 == ProvidersState({"A", "B"}, false, map["A" := [r0]], []);
    assert [r0] + [r1] == [r0, r1] && [r0, r1][1..] == [r1];
    assert !InWindow(40)(r0);
    FilterKeepsAll([r1], InWindow(40));
  }
}
