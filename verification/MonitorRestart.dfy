/** Every state the monitor saves is a state it accepts back, and a small one. */
module MonitorRestart {
  import opened Options
  import opened Text
  import opened Monitor
  import opened MonitorIssues

  /** The largest time value of ECMAScript, in milliseconds. */
  const DATE_MAX: nat := 8640000000000000

  predicate TextFits(text: Option<string>) {
    text.Some? ==> ValidIssueText(text.value) && |text.value| <= 72
  }

  predicate EntryFits(e: Entry, clock: nat) {
    e.at <= clock && e.id == Id(e.at) && ValidIssues(e.issues)
  }

  predicate QueueFits(q: seq<Entry>, clock: nat) {
    |q| <= 32 && forall i :: 0 <= i < |q| ==> EntryFits(q[i], clock)
  }

  /** The bounds every reachable state keeps, tighter than the ones validation asks for. */
  predicate Fits(s: State, clock: nat) {
    && TextFits(s.candidate) && TextFits(s.confirmed)
    && s.count.GetOr(0) <= 3 && s.failures.GetOr(0) <= 5
    && s.nextAttemptAt.GetOr(0) <= clock + 300000
    && QueueFits(Queue(s), clock)
  }

  lemma FitsLater(s: State, clock: nat, later: nat)
    requires Fits(s, clock) && clock <= later
    ensures Fits(s, later)
  {
    hide TextFits, ValidIssues, Id;
  }

  lemma ObserveFits(s: State, current: seq<string>, now: nat)
    requires Fits(s, now) && ValidIssues(current) && !Overflows(s, Key(current))
    ensures Fits(Observe(s, current, now), now)
  {
    hide ValidIssues, ValidIssueText, Key, Sort;
    KeyRoundTrip(current);
    SortValid(current);
  }

  lemma SentFits(s: State, acked: bool, now: nat)
    requires Fits(s, now) && Queue(s) != []
    ensures Fits(Sent(s, acked, now), now)
  {
    hide TextFits, ValidIssues, Id;
  }

  // ---------------------------------------------------------------- validation accepts it

  lemma StringsBack(texts: seq<string>)
    ensures Strings(StrArr(texts).items) == texts
  {
  }

  lemma EntryValidates(e: Entry, clock: nat, now: nat)
    requires EntryFits(e, clock) && clock <= DATE_MAX
    ensures ValidEntry(EntryJson(e), now) <==> e.at <= now + 5000
  {
    hide ValidIssues, Id;
    StringsBack(e.issues);
  }

  /** No queued notification is more than five seconds ahead of the clock. */
  predicate NotAhead(q: seq<Entry>, now: nat) {
    forall i :: 0 <= i < |q| ==> q[i].at <= now + 5000
  }

  lemma QueueValidates(q: seq<Entry>, clock: nat, now: nat)
    requires QueueFits(q, clock) && clock <= DATE_MAX
    ensures var items := EntriesJson(q).items;
            |items| <= 32 && ((forall i :: 0 <= i < |items| ==> ValidEntry(items[i], now)) <==> NotAhead(q, now))
  {
    hide EntryFits, ValidEntry;
    forall i | 0 <= i < |q|
      ensures ValidEntry(EntryJson(q[i]), now) <==> q[i].at <= now + 5000
    {
      EntryValidates(q[i], clock, now);
    }
    var items := EntriesJson(q).items;
    assert forall i :: 0 <= i < |q| ==> items[i] == EntryJson(q[i]);
  }

  /**
   A state within its bounds, written and read back at any time, earlier or later, validates exactly
   when neither its next attempt nor a queued notification is too far ahead of the clock.
   */
  lemma FitsValidates(s: State, clock: nat, now: nat)
    requires Fits(s, clock) && clock <= DATE_MAX
    ensures ValidateState(ToJson(s), now) <==> s.nextAttemptAt.GetOr(0) <= now + 360000 && NotAhead(Queue(s), now)
    ensures clock <= now ==> ValidateState(ToJson(s), now)
  {
    hide ValidIssueText, ValidEntry, EntryFits, EntryJson, NotAhead;
    if s.queue.Some? { QueueValidates(s.queue.value, clock, now); } else { NothingAhead(now); }
    if clock <= now { LaterIsNotAhead(Queue(s), clock, now); }
  }

  lemma NothingAhead(now: nat)
    ensures NotAhead([], now)
  {
  }

  lemma LaterIsNotAhead(q: seq<Entry>, clock: nat, now: nat)
    requires QueueFits(q, clock) && clock <= now
    ensures NotAhead(q, now)
  {
    hide Id, ValidIssues;
  }

  // ---------------------------------------------------------------- nothing is lost in the file

  function OptText(fields: map<Prop, Json>, name: Prop): Option<string> {
    if name in fields && fields[name].Str? then Some(fields[name].s) else None
  }

  function OptNat(fields: map<Prop, Json>, name: Prop): Option<nat> {
    if name in fields && fields[name].Int? && fields[name].n >= 0 then Some(fields[name].n) else None
  }

  function EntryOf(j: Json): Entry {
    if j.Obj? && At in j.fields && j.fields[At].Int? && j.fields[At].n >= 0
       && EntryId in j.fields && j.fields[EntryId].Str?
       && EntryIssues in j.fields && j.fields[EntryIssues].Arr?
       && (forall i :: 0 <= i < |j.fields[EntryIssues].items| ==> j.fields[EntryIssues].items[i].Str?)
    then Entry(j.fields[EntryId].s, Strings(j.fields[EntryIssues].items), j.fields[At].n)
    else Entry("", [], 0)
  }

  /** The state object a validated value stands for. */
  function FromJson(j: Json): State
    requires j.Obj?
  {
    State(
      OptText(j.fields, Candidate),
      OptNat(j.fields, Count),
      OptText(j.fields, Confirmed),
      if Initialized in j.fields && j.fields[Initialized].Bool? then Some(j.fields[Initialized].b) else None,
      if Queued in j.fields && j.fields[Queued].Arr?
      then
        var items := j.fields[Queued].items;
        Some(seq(|items|, i requires 0 <= i < |items| => EntryOf(items[i])))
      else None,
      OptNat(j.fields, Failures),
      OptNat(j.fields, NextAttemptAt))
  }

  lemma EntryBack(e: Entry)
    ensures EntryOf(EntryJson(e)) == e
  {
    StringsBack(e.issues);
  }

  lemma QueueBack(q: seq<Entry>)
    ensures var items := EntriesJson(q).items;
            seq(|items|, i requires 0 <= i < |items| => EntryOf(items[i])) == q
  {
    forall i | 0 <= i < |q|
      ensures EntryOf(EntryJson(q[i])) == q[i]
    {
      EntryBack(q[i]);
    }
  }

  lemma StoredFields(s: State)
    ensures var f := ToJson(s).fields;
            && OptText(f, Candidate) == s.candidate && OptText(f, Confirmed) == s.confirmed
            && OptNat(f, Count) == s.count && OptNat(f, Failures) == s.failures
            && OptNat(f, NextAttemptAt) == s.nextAttemptAt
            && (Initialized in f <==> s.initialized.Some?)
            && (s.initialized.Some? ==> f[Initialized] == Bool(s.initialized.value))
            && (Queued in f <==> s.queue.Some?) && (s.queue.Some? ==> f[Queued] == EntriesJson(s.queue.value))
  {
    hide EntriesJson;
  }

  /** A restart resumes with exactly the state that was saved. */
  lemma StateRoundTrip(s: State)
    ensures FromJson(ToJson(s)) == s
  {
    hide EntryOf, EntryJson, ToJson;
    StoredFields(s);
    if s.queue.Some? { QueueBack(s.queue.value); }
  }

  // ---------------------------------------------------------------- what validation accepts

  /** The bounds of a state that may be taken up at a given time. */
  predicate Bounded(s: State, now: int) {
    && s.count.GetOr(0) <= 3 && s.failures.GetOr(0) <= 5
    && (s.nextAttemptAt.Some? ==> s.nextAttemptAt.value <= now + 360000 && s.nextAttemptAt.value <= 9007199254740991)
    && (s.candidate.Some? ==> ValidIssueText(s.candidate.value))
    && (s.confirmed.Some? ==> ValidIssueText(s.confirmed.value))
    && |Queue(s)| <= 32 && forall i :: 0 <= i < |Queue(s)| ==> BoundedEntry(Queue(s)[i], now)
  }

  predicate BoundedEntry(e: Entry, now: int) {
    e.id == "pay-" + Decimal(e.at) && e.at <= now + 5000 && e.at <= 9007199254740991 && ValidIssues(e.issues)
  }

  lemma EntryValid(e: Entry, now: int)
    ensures ValidEntry(EntryJson(e), now) <==> BoundedEntry(e, now)
  {
    StringsBack(e.issues);
    hide ValidIssues, Decimal;
  }

  /** A stored state validates exactly if it is within the bounds. */
  lemma ValidatesExactly(s: State, now: int)
    ensures ValidateState(ToJson(s), now) <==> Bounded(s, now)
  {
    hide ValidIssueText, ValidEntry, EntryJson, BoundedEntry;
    if s.queue.Some? {
      var q := s.queue.value;
      forall i | 0 <= i < |q|
        ensures ValidEntry(EntryJson(q[i]), now) <==> BoundedEntry(q[i], now)
      {
        EntryValid(q[i], now);
      }
      assert forall i :: 0 <= i < |q| ==> EntriesJson(q).items[i] == EntryJson(q[i]);
    }
  }

  lemma EntryForth(j: Json, now: int)
    requires ValidEntry(j, now)
    ensures EntryJson(EntryOf(j)) == j
  {
    var items := j.fields[EntryIssues].items;
    assert StrArr(Strings(items)).items == items;
    hide ValidIssues, Id;
  }

  lemma QueueForth(items: seq<Json>, now: int)
    requires forall i :: 0 <= i < |items| ==> ValidEntry(items[i], now)
    ensures EntriesJson(seq(|items|, i requires 0 <= i < |items| => EntryOf(items[i]))) == Arr(items)
  {
    hide ValidEntry, EntryOf, EntryJson;
    forall i | 0 <= i < |items|
      ensures EntryJson(EntryOf(items[i])) == items[i]
    {
      EntryForth(items[i], now);
    }
  }

  /** Whatever validates is a stored state and nothing more: no other field, and no field of another type. */
  lemma ValidatedIsState(j: Json, now: int)
    requires ValidateState(j, now)
    ensures ToJson(FromJson(j)) == j && Bounded(FromJson(j), now)
  {
    hide ValidIssueText, ValidEntry, EntryOf, EntriesJson, Bounded;
    if Queued in j.fields { QueueForth(j.fields[Queued].items, now); }
    var s := FromJson(j);
    forall name: Prop
      ensures (name in FIELDS && PropJson(s, name).Some? <==> name in j.fields)
      ensures name in j.fields ==> PropJson(s, name) == Some(j.fields[name])
    {
    }
    ValidatesExactly(s, now);
  }

  // ---------------------------------------------------------------- and it fits the read bound

  function Quoted(s: string): string {
    "\"" + s + "\""
  }

  function Labelled(name: string, value: string): string {
    Quoted(name) + ":" + value
  }

  function QuotedAll(texts: seq<string>): seq<string> {
    seq(|texts|, i requires 0 <= i < |texts| => Quoted(texts[i]))
  }

  function EntryText(e: Entry): string {
    "{" + Labelled("id", Quoted(e.id)) + "," + Labelled("issues", "[" + Join(QuotedAll(e.issues)) + "]") + ","
    + Labelled("at", Decimal(e.at)) + "}"
  }

  function EntryTexts(q: seq<Entry>): seq<string> {
    seq(|q|, i requires 0 <= i < |q| => EntryText(q[i]))
  }

  function TextField(name: string, value: Option<string>): seq<string> {
    if value.Some? then [Labelled(name, Quoted(value.value))] else []
  }

  function NatField(name: string, value: Option<nat>): seq<string> {
    if value.Some? then [Labelled(name, Decimal(value.value))] else []
  }

  /** `JSON.stringify` of a state; none of the stored texts contains a character that is escaped. */
  function Stringify(s: State): string {
    "{" + Join(
      TextField("candidate", s.candidate)
      + NatField("count", s.count)
      + (if s.queue.Some? then [Labelled("queue", "[" + Join(EntryTexts(s.queue.value)) + "]")] else [])
      + TextField("confirmed", s.confirmed)
      + (if s.initialized.Some? then [Labelled("initialized", if s.initialized.value then "true" else "false")] else [])
      + NatField("failures", s.failures)
      + NatField("nextAttemptAt", s.nextAttemptAt)) + "}"
  }

  lemma TimeLength(n: nat)
    requires n <= DATE_MAX + 300000
    ensures |Decimal(n)| <= 16
  {
    assert Pow10(16) == 10000000000000000 by {
      assert Pow10(4) == 10000;
      assert Pow10(8) == 100000000;
      assert Pow10(12) == 1000000000000;
    }
    DecimalLength(n, 16);
  }

  lemma EntryLength(e: Entry, clock: nat)
    requires EntryFits(e, clock) && clock <= DATE_MAX
    ensures |EntryText(e)| <= 160
  {
    hide ValidIssues, Decimal;
    TimeLength(e.at);
    forall p | p in QuotedAll(e.issues)
      ensures |p| <= 25
    {
      var i :| 0 <= i < |e.issues| && p == Quoted(e.issues[i]);
      MemberSimple(e.issues, e.issues[i]);
    }
    AtMostThree(e.issues);
    JoinLength(QuotedAll(e.issues), 25);
  }

  lemma QueueLength(q: seq<Entry>, clock: nat)
    requires QueueFits(q, clock) && clock <= DATE_MAX
    ensures |Join(EntryTexts(q))| <= 32 * 161
  {
    hide EntryFits, EntryText;
    forall p | p in EntryTexts(q)
      ensures |p| <= 160
    {
      var i :| 0 <= i < |q| && p == EntryText(q[i]);
      EntryLength(q[i], clock);
    }
    JoinLength(EntryTexts(q), 160);
  }

  lemma SmallNumber(n: nat)
    requires n <= 9
    ensures |Decimal(n)| == 1
  {
  }

  /** The saved text is far inside the 16384 bytes the next start is willing to read. */
  lemma StateLength(s: State, clock: nat)
    requires Fits(s, clock) && clock <= DATE_MAX
    ensures |Stringify(s)| <= 16384
  {
    hide EntryTexts, Decimal, QueueFits, ValidIssueText;
    var q := if s.queue.Some? then [Labelled("queue", "[" + Join(EntryTexts(s.queue.value)) + "]")] else [];
    if s.queue.Some? { QueueLength(s.queue.value, clock); }
    if s.count.Some? { SmallNumber(s.count.value); }
    if s.failures.Some? { SmallNumber(s.failures.value); }
    if s.nextAttemptAt.Some? { TimeLength(s.nextAttemptAt.value); }
    var init :=
      if s.initialized.Some? then [Labelled("initialized", if s.initialized.value then "true" else "false")] else [];
    SevenParts(TextField("candidate", s.candidate), NatField("count", s.count), q, TextField("confirmed", s.confirmed),
               init, NatField("failures", s.failures), NatField("nextAttemptAt", s.nextAttemptAt), 5200, 100);
  }

  lemma {:induction false} JoinConcatLength(a: seq<string>, b: seq<string>)
    ensures |Join(a + b)| <= |Join(a)| + 1 + |Join(b)|
  {
    if a == [] {
      assert a + b == b;
    } else if |a| == 1 {
      assert (a + b)[1..] == b;
    } else {
      assert (a + b)[1..] == a[1..] + b;
      JoinConcatLength(a[1..], b);
    }
  }

  lemma SevenParts(
      a: seq<string>, b: seq<string>, c: seq<string>, d: seq<string>, e: seq<string>, f: seq<string>, g: seq<string>,
      big: nat, small: nat)
    requires |Join(c)| <= big
    requires |Join(a)| <= small && |Join(b)| <= small && |Join(d)| <= small
    requires |Join(e)| <= small && |Join(f)| <= small && |Join(g)| <= small
    ensures |Join(a + b + c + d + e + f + g)| <= big + 6 * (small + 1)
  {
    JoinConcatLength(a + b + c + d + e + f, g);
    JoinConcatLength(a + b + c + d + e, f);
    JoinConcatLength(a + b + c + d, e);
    JoinConcatLength(a + b + c, d);
    JoinConcatLength(a + b, c);
    JoinConcatLength(a, b);
  }
}
