/** What an observation can contain, and how it survives being stored as one text. */
module MonitorIssues {
  import opened Options
  import opened Text
  import opened Monitor

  predicate Simple(key: string) {
    Plain(key) && 1 <= |key| <= 23
  }

  lemma PlainPair(a: string, b: string)
    requires Plain(a) && Plain(b)
    ensures Plain(a + b)
  {
  }

  lemma PlainComponents(component: string)
    requires component in COMPONENTS
    ensures Plain(component) && |component| == 7 && Plain("_stale") && Plain("_")
  {
    assert Plain("scanner") && Plain("webhook");
  }

  lemma PlainCodes(code: string)
    requires code in FAILURE_CODES
    ensures Plain(code) && |code| <= 15
  {
    assert Plain("catching_up") && Plain("deep_reorg") && Plain("scanner_behind");
    assert Plain("chain_invalid") && Plain("rpc_unavailable") && Plain("cycle_failed");
  }

  lemma ComponentIssueSimple(component: string, key: string)
    requires component in COMPONENTS && ComponentIssue(component, key)
    ensures Simple(key)
  {
    PlainComponents(component);
    PlainPair(component, "_stale");
    PlainPair(component, "_");
    hide Plain;
    if key != component + "_stale" {
      var code :| code in FAILURE_CODES && key == component + "_" + code;
      PlainCodes(code);
      PlainPair(component + "_", code);
    }
  }

  lemma IssueKeySimple(key: string)
    requires IssueKey(key)
    ensures Simple(key)
  {
    if key == "worker_inactive" || key == "snapshot_unavailable" {
    } else if ComponentIssue("scanner", key) {
      ComponentIssueSimple("scanner", key);
    } else {
      ComponentIssueSimple("webhook", key);
    }
  }

  /** `issues` reports known keys, each once, at most one per component and one for the worker. */
  lemma ObservationValid(s: Snapshot, now: int)
    ensures ValidIssues(Observation(s, now))
  {
    if Issues(s, now).Some? {
      IssuesValid(s, now);
    }
  }

  lemma IssuesValid(s: Snapshot, now: int)
    requires Issues(s, now).Some?
    ensures ValidIssues(Issues(s, now).value)
  {
    hide SampleIssue, ComponentIssue, Family, ValidIssues, Sort;
    var scanner := SampleIssue("scanner", s.scanner, now).value;
    var webhook := SampleIssue("webhook", s.webhook, now).value;
    var worker := if s.active then [] else ["worker_inactive"];
    assert "scanner" == COMPONENTS[0] && "webhook" == COMPONENTS[1];
    assert "scanner"[1] == 'c' && "webhook"[1] == 'e';
    SampleIssueKnown("scanner", s.scanner, now);
    SampleIssueKnown("webhook", s.webhook, now);
    WorkerIssueKnown();
    ThreeSources(worker, scanner, webhook);
    SortValid(worker + scanner + webhook);
  }

  lemma WorkerIssueKnown()
    ensures IssueKey("worker_inactive") && Family("worker_inactive") == 'o'
  {
  }

  lemma ThreeSources(worker: seq<string>, scanner: seq<string>, webhook: seq<string>)
    requires |worker| <= 1 && |scanner| <= 1 && |webhook| <= 1
    requires forall k :: k in worker ==> IssueKey(k) && Family(k) == 'o'
    requires forall k :: k in scanner ==> IssueKey(k) && Family(k) == 'c'
    requires forall k :: k in webhook ==> IssueKey(k) && Family(k) == 'e'
    ensures ValidIssues(worker + scanner + webhook)
  {
    hide IssueKey, Family;
    var all := worker + scanner + webhook;
    forall i | 0 <= i < |all|
      ensures IssueKey(all[i])
    {
      assert all[i] in worker || all[i] in scanner || all[i] in webhook;
    }
    forall i, j | 0 <= i < j < |all|
      ensures all[i] != all[j]
    {
      assert Family(all[i]) != Family(all[j]);
    }
  }

  /** The second letter tells the three sources of issues apart. */
  function Family(key: string): char {
    if |key| >= 2 then key[1] else ' '
  }

  lemma SampleIssueKnown(component: string, s: Sample, now: int)
    requires component in COMPONENTS && SampleIssue(component, s, now).Some?
    ensures var r := SampleIssue(component, s, now).value;
            |r| <= 1 && forall k :: k in r ==> ComponentIssue(component, k) && Family(k) == component[1]
  {
  }

  lemma SortValid(keys: seq<string>)
    requires ValidIssues(keys)
    ensures ValidIssues(Sort(keys))
  {
    var r := Sort(keys);
    forall i | 0 <= i < |r|
      ensures IssueKey(r[i])
    {
      assert r[i] in multiset(r);
      assert r[i] in keys;
    }
    DistinctByCount(keys);
    DistinctFromCount(r);
  }

  lemma {:induction false} DistinctByCount(keys: seq<string>)
    requires Distinct(keys)
    ensures forall k :: multiset(keys)[k] <= 1
  {
    if keys != [] {
      DistinctByCount(keys[1..]);
      assert keys == [keys[0]] + keys[1..];
      assert keys[0] !in keys[1..];
    }
  }

  lemma DistinctFromCount(keys: seq<string>)
    requires forall k :: multiset(keys)[k] <= 1
    ensures Distinct(keys)
  {
    forall i, j | 0 <= i < j < |keys|
      ensures keys[i] != keys[j]
    {
      var rest := keys[i + 1..];
      assert keys == keys[..i] + [keys[i]] + rest;
      assert multiset(keys) == multiset(keys[..i]) + multiset([keys[i]]) + multiset(rest);
      assert multiset([keys[i]])[keys[i]] == 1;
      assert multiset(keys)[keys[i]] <= 1;
      assert multiset(rest)[keys[i]] == 0;
      assert rest[j - i - 1] == keys[j];
      assert keys[j] in multiset(rest);
    }
  }

  /** The stored candidate and confirmed texts split back into exactly the issues observed. */
  lemma KeyRoundTrip(current: seq<string>)
    requires ValidIssues(current)
    ensures Key(current) == "" <==> current == []
    ensures current != [] ==> Split(Key(current)) == Sort(current)
    ensures ValidIssueText(Key(current)) && |Key(current)| <= 72
  {
    SortValid(current);
    StoredText(Sort(current));
  }

  lemma StoredText(keys: seq<string>)
    requires ValidIssues(keys)
    ensures Join(keys) == "" <==> keys == []
    ensures keys != [] ==> Split(Join(keys)) == keys
    ensures ValidIssueText(Join(keys)) && |Join(keys)| <= 72
  {
    hide IssueKey, ValidIssues, Split, Join;
    forall p | p in keys
      ensures Simple(p)
    {
      MemberSimple(keys, p);
    }
    AtMostThree(keys);
    JoinLength(keys, 23);
    if keys == [] {
      JoinNothing();
    } else {
      SplitJoin(keys);
      MemberSimple(keys, keys[0]);
      JoinSomething(keys);
    }
  }

  lemma MemberSimple(keys: seq<string>, p: string)
    requires ValidIssues(keys) && p in keys
    ensures Simple(p)
  {
    IssueKeySimple(p);
  }

  lemma AtMostThree(keys: seq<string>)
    requires ValidIssues(keys)
    ensures |keys| <= 3
  {
  }

  lemma JoinNothing()
    ensures Join([]) == ""
  {
  }

  lemma JoinSomething(keys: seq<string>)
    requires keys != [] && keys[0] != ""
    ensures Join(keys) != ""
  {
  }

  /** The same issues found in another order have the same key. */
  lemma KeyIsCanonical(a: seq<string>, b: seq<string>)
    requires multiset(a) == multiset(b)
    ensures Key(a) == Key(b)
  {
    SortCanonical(a, b);
  }
}
