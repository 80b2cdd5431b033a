/** Counting to a threshold is looking back over the history of observations. */
module MonitorHistory {
  import opened Options
  import opened Text
  import opened Monitor

  /** The last position agrees with the two before it, or, for an empty key, with the one before. */
  predicate Settles(keys: seq<string>)
    requires keys != []
  {
    var n := |keys|;
    var last := keys[n - 1];
    if last == "" then n >= 2 && keys[n - 2] == last
    else n >= 3 && keys[n - 2] == last && keys[n - 3] == last
  }

  /** The key at the latest position that settles. */
  function SettledKey(keys: seq<string>): Option<string> {
    if keys == [] then None
    else if Settles(keys) then Some(keys[|keys| - 1])
    else SettledKey(keys[..|keys| - 1])
  }

  /** This observation is reported: it settles on something new that is not a first good baseline. */
  predicate Notice(keys: seq<string>, key: string) {
    Settles(keys + [key]) && SettledKey(keys) != Some(key) && (SettledKey(keys).None? ==> key != "")
  }

  /** Every key reported along a history. */
  function Notices(keys: seq<string>): seq<string> {
    if keys == [] then []
    else
      var before, key := keys[..|keys| - 1], keys[|keys| - 1];
      Notices(before) + (if Notice(before, key) then [key] else [])
  }

  function RunLength(keys: seq<string>): nat {
    if keys == [] then 0
    else if |keys| >= 2 && keys[|keys| - 1] == keys[|keys| - 2] then RunLength(keys[..|keys| - 1]) + 1
    else 1
  }

  lemma SettlesByRunLength(keys: seq<string>)
    requires keys != []
    ensures Settles(keys) <==> RunLength(keys) >= Threshold(keys[|keys| - 1])
  {
    if |keys| >= 2 && keys[|keys| - 1] == keys[|keys| - 2] {
      var shorter := keys[..|keys| - 1];
      assert RunLength(shorter) >= 1;
      if |shorter| >= 2 && shorter[|shorter| - 1] == shorter[|shorter| - 2] {
        assert RunLength(shorter[..|shorter| - 1]) >= 1;
      }
    }
  }

  /** The four hysteresis fields are a function of the observation history. */
  predicate HistoryOf(s: State, keys: seq<string>) {
    && s.candidate == (if keys == [] then None else Some(keys[|keys| - 1]))
    && s.count == (if keys == [] then None else Some(Min(RunLength(keys), 3)))
    && s.confirmed == SettledKey(keys)
    && s.initialized == (if SettledKey(keys).Some? then Some(true) else None)
  }

  lemma CountedRunLength(s: State, keys: seq<string>, key: string)
    requires HistoryOf(s, keys)
    ensures Counted(s, key).count == Some(Min(RunLength(keys + [key]), 3))
    ensures Counted(s, key).candidate == Some(key)
  {
    assert (keys + [key])[..|keys|] == keys;
  }

  /** One observation, in counters and in history. */
  lemma ObserveFollowsHistory(s: State, keys: seq<string>, current: seq<string>, now: nat)
    requires HistoryOf(s, keys) && !Overflows(s, Key(current))
    ensures HistoryOf(Observe(s, current, now), keys + [Key(current)])
    ensures Notifies(s, Key(current)) <==> Notice(keys, Key(current))
    ensures Notices(keys + [Key(current)]) == Notices(keys) + (if Notifies(s, Key(current)) then [Key(current)] else [])
  {
    var key := Key(current);
    var longer := keys + [key];
    assert longer[..|keys|] == keys;
    CountedRunLength(s, keys, key);
    SettlesByRunLength(longer);
    assert Confirms(s, key) <==> Settles(longer) && SettledKey(keys) != Some(key);
  }

  /** Reports alternate, and the first report of all is an alert. */
  lemma {:induction false} NoticesAlternate(keys: seq<string>)
    ensures var n := Notices(keys);
            && (n != [] ==> n[0] != "" && SettledKey(keys) == Some(n[|n| - 1]))
            && (n == [] ==> SettledKey(keys) == None || SettledKey(keys) == Some(""))
            && forall i :: 0 <= i < |n| - 1 ==> n[i] != n[i + 1]
  {
    if keys != [] {
      var before, key := keys[..|keys| - 1], keys[|keys| - 1];
      NoticesAlternate(before);
      assert before + [key] == keys;
      var n := Notices(before);
      if Notice(before, key) {
        forall i | 0 <= i < |n + [key]| - 1
          ensures (n + [key])[i] != (n + [key])[i + 1]
        {
        }
      }
    }
  }
}
