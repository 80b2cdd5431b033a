/**
 The incident monitor (monitoring/discrete-pay/policy.mjs and monitor.mjs): hysteresis over an
 observation stream, a bounded notification queue saved before anything is sent, and back-off.
 */
module Monitor {
  import opened Options
  import opened Text

  // ---------------------------------------------------------------- observations

  const COMPONENTS: seq<string> := ["scanner", "webhook"]
  const FAILURE_CODES: seq<string> :=
    ["catching_up", "deep_reorg", "scanner_behind", "chain_invalid", "rpc_unavailable", "cycle_failed"]

  predicate KnownCode(code: string) {
    code == "success" || code in FAILURE_CODES
  }

  predicate ComponentIssue(component: string, key: string) {
    key == component + "_stale" || exists code :: code in FAILURE_CODES && key == component + "_" + code
  }

  /** The issue keys the monitor may ever report or store. */
  predicate IssueKey(key: string) {
    || key == "worker_inactive" || key == "snapshot_unavailable"
    || ComponentIssue("scanner", key) || ComponentIssue("webhook", key)
  }

  predicate Distinct(keys: seq<string>) {
    forall i, j :: 0 <= i < j < |keys| ==> keys[i] != keys[j]
  }

  predicate ValidIssues(keys: seq<string>) {
    |keys| <= 3 && Distinct(keys) && forall i :: 0 <= i < |keys| ==> IssueKey(keys[i])
  }

  datatype Sample = Missing | Malformed | Sample(component: string, ok: bool, code: string, at: int)

  /** A parsed snapshot whose fields have the right JSON types, or anything else. */
  datatype Snapshot = Unreadable | Snapshot(version: int, at: int, active: bool, scanner: Sample, webhook: Sample)

  const SAFE: int := 9007199254740991

  predicate WellFormedSample(component: string, s: Sample, now: int) {
    s.Sample? && s.component == component && KnownCode(s.code) && s.ok == (s.code == "success")
    && 0 <= s.at <= SAFE && s.at <= now + 5000
  }

  function SampleIssue(component: string, s: Sample, now: int): Option<seq<string>> {
    if s.Missing? then Some([component + "_stale"])
    else if !WellFormedSample(component, s, now) then None
    else if now - s.at > 180000 then Some([component + "_stale"])
    else if !s.ok then Some([component + "_" + s.code])
    else Some([])
  }

  /** `issues`: None is the thrown error. */
  function Issues(s: Snapshot, now: int): Option<seq<string>> {
    if s.Unreadable? || s.version != 1 || s.at < -SAFE || s.at > SAFE || s.at > now + 5000
       || now - s.at > 30000 then None
    else
      var scanner := SampleIssue("scanner", s.scanner, now);
      var webhook := SampleIssue("webhook", s.webhook, now);
      if scanner.None? || webhook.None? then None
      else Some(Sort((if s.active then [] else ["worker_inactive"]) + scanner.value + webhook.value))
  }

  /** What a tick observes: a snapshot that cannot be had or trusted is itself the issue. */
  function Observation(s: Snapshot, now: int): seq<string> {
    Issues(s, now).GetOr(["snapshot_unavailable"])
  }

  function Key(current: seq<string>): string {
    Join(Sort(current))
  }

  // ---------------------------------------------------------------- state

  datatype Entry = Entry(id: string, issues: seq<string>, at: nat)

  /** The state object; None is a property that is not there yet. */
  datatype State = State(
    candidate: Option<string>,
    count: Option<nat>,
    confirmed: Option<string>,
    initialized: Option<bool>,
    queue: Option<seq<Entry>>,
    failures: Option<nat>,
    nextAttemptAt: Option<nat>)

  const EMPTY: State := State(None, None, None, None, None, None, None)

  function Queue(s: State): seq<Entry> {
    s.queue.GetOr([])
  }

  function Id(at: nat): string {
    "pay-" + Decimal(at)
  }

  function Threshold(key: string): nat {
    if key == "" then 2 else 3
  }

  function Min(a: nat, b: nat): nat {
    if a <= b then a else b
  }

  /** The candidate and its run length after one more observation. */
  function Counted(s: State, key: string): State {
    var s1 := if s.candidate != Some(key) then s.(candidate := Some(key), count := Some(0)) else s;
    s1.(count := Some(Min(s1.count.GetOr(0) + 1, 3)))
  }

  predicate Confirms(s: State, key: string) {
    Counted(s, key).count.value >= Threshold(key) && s.confirmed != Some(key)
  }

  predicate Notifies(s: State, key: string) {
    Confirms(s, key) && (s.initialized == Some(true) || key != "")
  }

  /** `observe` would push onto a full queue, and throws instead. */
  predicate Overflows(s: State, key: string) {
    Notifies(s, key) && |Queue(s)| >= 32
  }

  function Observe(s: State, current: seq<string>, now: nat): State
    requires !Overflows(s, Key(current))
  {
    var key := Key(current);
    var s1 := Counted(s, key);
    if !Confirms(s, key) then s1
    else
      var s2 := if Notifies(s, key) then s1.(queue := Some(Queue(s1) + [Entry(Id(now), Sort(current), now)])) else s1;
      s2.(confirmed := Some(key), initialized := Some(true))
  }

  // ---------------------------------------------------------------- one tick

  /** A send is lost, accepted with the answer lost, or accepted and acknowledged. */
  datatype Fate = Lost | Unanswered | Acknowledged

  /** Everything one tick gets from outside: the snapshot, four clock readings, the send's fate. */
  datatype Ports = Ports(snapshot: Snapshot, t0: nat, t1: nat, t2: nat, t3: nat, fate: Fate)

  function Current(p: Ports): seq<string> {
    Observation(p.snapshot, p.t0)
  }

  predicate Due(s: State, now: nat) {
    Queue(s) != [] && now >= s.nextAttemptAt.GetOr(0)
  }

  function Pow2(k: nat): nat {
    if k == 0 then 1 else 2 * Pow2(k - 1)
  }

  function BackOff(failures: nat): nat {
    Min(300000, 10000 * Pow2(failures))
  }

  function Sent(s: State, acked: bool, now: nat): State
    requires Queue(s) != []
  {
    if acked then s.(queue := Some(Queue(s)[1..]), failures := Some(0), nextAttemptAt := Some(0))
    else
      var failures := Min(s.failures.GetOr(0) + 1, 5);
      s.(failures := Some(failures), nextAttemptAt := Some(now + BackOff(failures)))
  }

  /** A complete tick in memory; None when `observe` throws. */
  function Tick(s: State, p: Ports): Option<State> {
    if Overflows(s, Key(Current(p))) then None
    else
      var s1 := Observe(s, Current(p), p.t1);
      Some(if Due(s1, p.t2) then Sent(s1, p.fate == Acknowledged, p.t3) else s1)
  }

  // ---------------------------------------------------------------- the process and its disk

  /** Where a tick is cut: before the first save, before the send, before the second save, or not. */
  datatype Cut = BeforeSave | BeforeSend | AfterSend | NoCut

  datatype World = World(
    mem: State,
    disk: Option<State>,        // state.json
    alive: bool,
    received: seq<Entry>,       // what the receiver accepted, in order
    clock: nat,
    observed: seq<string>,      // keys of the observations that became durable
    enqueued: seq<Entry>)       // notifications that became durable, in order

  function Stored(w: World): State {
    w.disk.GetOr(EMPTY)
  }

  function NewEntries(before: State, after: State): seq<Entry> {
    if |Queue(after)| > |Queue(before)| then [Queue(after)[|Queue(after)| - 1]] else []
  }

  function Saved(w: World, s1: State, key: string): World {
    w.(mem := s1, disk := Some(s1),
       observed := w.observed + [key], enqueued := w.enqueued + NewEntries(w.mem, s1))
  }

  /** A process that died takes its memory with it. */
  function Dead(w: World): World {
    w.(mem := EMPTY, alive := false)
  }

  function PlayTick(w: World, p: Ports, cut: Cut): World {
    var w0 := w.(clock := p.t3);
    if !w.alive then w0
    else if Overflows(w.mem, Key(Current(p))) || cut == BeforeSave then Dead(w0)
    else
      var s1 := Observe(w.mem, Current(p), p.t1);
      var w1 := Saved(w0, s1, Key(Current(p)));
      if !Due(s1, p.t2) then w1
      else if cut == BeforeSend then Dead(w1)
      else
        var w2 := w1.(received := if p.fate != Lost then w1.received + [Queue(s1)[0]] else w1.received);
        var s2 := Sent(s1, p.fate == Acknowledged, p.t3);
        if cut == AfterSend then Dead(w2) else w2.(mem := s2, disk := Some(s2))
  }

  // ---------------------------------------------------------------- stored text and its validation

  /** Property names the validator knows, and any other. */
  datatype Prop =
    | Candidate | Count | Confirmed | Initialized | Queued | Failures | NextAttemptAt   // of the state
    | At | EntryId | EntryIssues                                                        // of a queue entry
    | Foreign(name: string)

  /** A parsed JSON value; `Fraction` is any number that is not an integer. */
  datatype Json =
    | Null
    | Bool(b: bool)
    | Int(n: int)
    | Fraction
    | Str(s: string)
    | Arr(items: seq<Json>)
    | Obj(fields: map<Prop, Json>)

  const FIELDS: set<Prop> := {Candidate, Count, Confirmed, Initialized, Queued, Failures, NextAttemptAt}

  predicate ValidIssueText(text: string) {
    ValidIssues(if text == "" then [] else Split(text))
  }

  predicate ValidIssueArray(j: Json) {
    j.Arr? && (forall i :: 0 <= i < |j.items| ==> j.items[i].Str?) && ValidIssues(Strings(j.items))
  }

  function Strings(items: seq<Json>): seq<string>
    requires forall i :: 0 <= i < |items| ==> items[i].Str?
  {
    seq(|items|, i requires 0 <= i < |items| => items[i].s)
  }

  predicate ValidText(fields: map<Prop, Json>, name: Prop) {
    name in fields ==> fields[name].Str? && ValidIssueText(fields[name].s)
  }

  predicate ValidCounter(fields: map<Prop, Json>, name: Prop, max: int) {
    name in fields ==> fields[name].Int? && 0 <= fields[name].n <= max && fields[name].n <= SAFE
  }

  predicate ValidEntry(j: Json, now: int) {
    && j.Obj? && j.fields.Keys == {At, EntryId, EntryIssues}
    && j.fields[At].Int? && 0 <= j.fields[At].n <= SAFE && j.fields[At].n <= now + 5000
    && j.fields[EntryId] == Str(Id(j.fields[At].n))
    && ValidIssueArray(j.fields[EntryIssues])
  }

  /** `validateState` returns rather than throws. */
  predicate ValidateState(j: Json, now: int) {
    && j.Obj? && j.fields.Keys <= FIELDS
    && ValidText(j.fields, Candidate) && ValidText(j.fields, Confirmed)
    && ValidCounter(j.fields, Count, 3)
    && ValidCounter(j.fields, Failures, 5)
    && ValidCounter(j.fields, NextAttemptAt, now + 360000)
    && (Initialized in j.fields ==> j.fields[Initialized].Bool?)
    && (Queued in j.fields ==>
          && j.fields[Queued].Arr? && |j.fields[Queued].items| <= 32
          && forall i :: 0 <= i < |j.fields[Queued].items| ==> ValidEntry(j.fields[Queued].items[i], now))
  }

  function StrArr(texts: seq<string>): Json {
    Arr(seq(|texts|, i requires 0 <= i < |texts| => Str(texts[i])))
  }

  function EntryJson(e: Entry): Json {
    Obj(map[EntryId := Str(e.id), EntryIssues := StrArr(e.issues), At := Int(e.at)])
  }

  function EntriesJson(q: seq<Entry>): Json {
    Arr(seq(|q|, i requires 0 <= i < |q| => EntryJson(q[i])))
  }

  /** The value of one property of the state object, if it has it. */
  function PropJson(s: State, name: Prop): Option<Json> {
    match name
    case Candidate => if s.candidate.Some? then Some(Str(s.candidate.value)) else None
    case Count => if s.count.Some? then Some(Int(s.count.value)) else None
    case Confirmed => if s.confirmed.Some? then Some(Str(s.confirmed.value)) else None
    case Initialized => if s.initialized.Some? then Some(Bool(s.initialized.value)) else None
    case Queued => if s.queue.Some? then Some(EntriesJson(s.queue.value)) else None
    case Failures => if s.failures.Some? then Some(Int(s.failures.value)) else None
    case NextAttemptAt => if s.nextAttemptAt.Some? then Some(Int(s.nextAttemptAt.value)) else None
    case _ => None
  }

  /** The value `JSON.parse` gives back for a saved state. */
  function ToJson(s: State): Json {
    Obj(map name | name in FIELDS && PropJson(s, name).Some? :: PropJson(s, name).value)
  }

  /** A start of the process: the saved state if it validates, the empty one if there is none. */
  function PlayStart(w: World, now: nat): World {
    if w.disk.None? then w.(mem := EMPTY, alive := true, clock := now)
    else if ValidateState(ToJson(w.disk.value), now) then w.(mem := w.disk.value, alive := true, clock := now)
    else Dead(w.(clock := now))
  }

  datatype Event = TickEvent(ports: Ports, cut: Cut) | StartEvent(now: nat)

  function Play(w: World, e: Event): World {
    match e
    case TickEvent(p, cut) => PlayTick(w, p, cut)
    case StartEvent(now) => PlayStart(w, now)
  }

  function Run(w: World, events: seq<Event>): World
    decreases |events|
  {
    if events == [] then w else Play(Run(w, events[..|events| - 1]), events[|events| - 1])
  }

  const BOOT: World := World(EMPTY, None, false, [], 0, [], [])
}
