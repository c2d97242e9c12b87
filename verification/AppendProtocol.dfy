/** Appending to one run's event log from many callers in many processes.

Each process runs its callers' appends one after the other (a promise queue); processes exclude
each other with a lock file that is created exclusively, treated as stale after a minute, and
unlinked.  Every file-system call is one atomic step of the state machine below. */
module AppendProtocol {
  import opened EventText
  import opened Wrappers

  const LOCK_TIMEOUT_MS := 60_000

  // One call of append, from one process.
  datatype Call = Call(process: nat, id: nat, fallback: string, body: string, hasData: bool)

  datatype Pc =
    | Queued                      // behind earlier calls of its process
    | Opening(startedAt: int)     // about to create the lock file
    | Blocked(startedAt: int)     // the lock file exists; about to stat it
    | Looked(startedAt: int, seen: Lock, at: int)  // has stat'ed the file, then; about to read the clock
    | Stale(startedAt: int, seen: Lock, at: int)   // and it was a minute old by then; about to unlink
    | Retrying(startedAt: int)    // about to give up or sleep
    | Created                     // has created the lock file; about to fill it in
    | Locked                      // about to read the log
    | Prepared(event: Event)      // has read the log; about to append
    | Written(event: Event)       // has appended; about to unlink
    | Returned(event: Event)
    | TimedOut
    | Failed                      // the file system refused
    | Crashed

  datatype Lock = Free | Held(owner: Call, mtime: int)

  // A whole record that was written; `joined` when the file did not end at a line start then.
  datatype Ack = Ack(call: Call, event: Event, joined: bool)

  // `entered`, `tickets`, `acks`, `tears` and `robbed` record history: the order in which calls entered, the
  // appends that wrote a whole record, the number of those that wrote a part of one, and whether a stale
  // takeover ever unlinked the lock file of a writer that was still at work.
  datatype State = State(
    runId: string,
    text: Text,
    lock: Lock,
    clock: int,
    pcs: map<Call, Pc>,
    queues: map<nat, seq<Call>>,
    dead: set<nat>,
    entered: nat,
    tickets: map<Call, nat>,
    acks: seq<Ack>,
    tears: nat,
    robbed: bool)

  datatype Step =
    | Enter(c: Call)
    | Turn(c: Call)
    | Create(c: Call)
    | Bounce(c: Call)
    | Stat(c: Call)
    | Compare(c: Call)
    | Unlink(c: Call)
    | Retry(c: Call)
    | Fill(c: Call)
    | FailWaiting(c: Call)               // throws before it has the lock
    | FailFilling(c: Call)               // throws there: the lock file stays behind
    | Fetch(c: Call)
    | Append(c: Call)
    | Release(c: Call)
    // these throw, before or after the whole record is written, possibly again while releasing
    | Fail(c: Call, cut: nat, released: bool)
    | FailWritten(c: Call, released: bool)
    | Crash(process: nat)
    | CrashAppending(c: Call, cut: nat)  // the process dies inside c's append
    | Tick(ms: nat)

  predicate Critical(pc: Pc) { pc.Created? || pc.Locked? || pc.Prepared? || pc.Written? }

  predicate Running(pc: Pc) {
    Critical(pc) || pc.Opening? || pc.Blocked? || pc.Looked? || pc.Stale? || pc.Retrying?
  }

  function Init(runId: string, clock: int): State {
    State(runId, [], Free, clock, map[], map[], {}, 0, map[], [], 0, false)
  }

  function Queue(s: State, process: nat): seq<Call> {
    if process in s.queues then s.queues[process] else []
  }

  predicate Enabled(s: State, step: Step) {
    match step
    case Enter(c) => c !in s.pcs && c.process !in s.dead
    case Turn(c) => c in s.pcs && s.pcs[c].Queued? && Queue(s, c.process) != [] && Queue(s, c.process)[0] == c
    case Create(c) => c in s.pcs && s.pcs[c].Opening? && s.lock.Free?
    case Bounce(c) => c in s.pcs && s.pcs[c].Opening? && s.lock.Held?
    case Stat(c) => c in s.pcs && s.pcs[c].Blocked?
    case Compare(c) => c in s.pcs && s.pcs[c].Looked?
    case Unlink(c) => c in s.pcs && s.pcs[c].Stale?
    case Retry(c) => c in s.pcs && s.pcs[c].Retrying?
    case Fill(c) => c in s.pcs && s.pcs[c].Created?
    case FailWaiting(c) => c in s.pcs && (s.pcs[c].Opening? || s.pcs[c].Blocked? || s.pcs[c].Stale?)
    case FailFilling(c) => c in s.pcs && s.pcs[c].Created?
    case Fetch(c) => c in s.pcs && s.pcs[c].Locked?
    case Append(c) => c in s.pcs && s.pcs[c].Prepared?
    case Release(c) => c in s.pcs && s.pcs[c].Written?
    case Fail(c, cut, _) =>
      c in s.pcs && (if s.pcs[c].Prepared? then cut <= |Render(s.pcs[c].event)| else s.pcs[c].Locked? && cut == 0)
    case FailWritten(c, _) => c in s.pcs && s.pcs[c].Written?
    case Crash(p) => p !in s.dead
    case CrashAppending(c, cut) => c in s.pcs && s.pcs[c].Prepared? && cut <= |Render(s.pcs[c].event)|
    case Tick(_) => true
  }

  function Move(s: State, c: Call, pc: Pc): State {
    s.(pcs := s.pcs[c := pc])
  }

  /** The call settles: the next call of its process may take its turn. */
  function Settle(s: State, c: Call, pc: Pc): State {
    var q := Queue(s, c.process);
    Move(s, c, pc).(queues := s.queues[c.process := if q == [] then [] else q[1..]])
  }

  function Torn(s: State, c: Call, cut: nat): Text
    requires c in s.pcs && (s.pcs[c].Prepared? ==> cut <= |Render(s.pcs[c].event)|)
  {
    if s.pcs[c].Prepared? then s.text + Render(s.pcs[c].event)[..cut] else s.text
  }

  function Kill(s: State, process: nat): State {
    s.(pcs := map c | c in s.pcs :: if c.process == process && (Running(s.pcs[c]) || s.pcs[c].Queued?) then Crashed else s.pcs[c],
       queues := s.queues[process := []],
       dead := s.dead + {process})
  }

  function Tears(s: State, cut: nat): nat { if cut > 0 then s.tears + 1 else s.tears }

  predicate LiveHolder(s: State, lock: Lock) {
    lock.Held? && lock.owner in s.pcs && Critical(s.pcs[lock.owner])
  }

  function Apply(s: State, step: Step): State
    requires Enabled(s, step)
  {
    match step
    case Enter(c) =>
      Move(s, c, Queued).(queues := s.queues[c.process := Queue(s, c.process) + [c]],
                          entered := s.entered + 1,
                          tickets := s.tickets[c := s.entered])
    case Turn(c) => Move(s, c, Opening(s.clock))
    case Create(c) => Move(s, c, Created).(lock := Held(c, s.clock))
    case Bounce(c) => Move(s, c, Blocked(s.pcs[c].startedAt))
    case Stat(c) =>
      Move(s, c, if s.lock.Held? then Looked(s.pcs[c].startedAt, s.lock, s.clock) else Retrying(s.pcs[c].startedAt))
    case Compare(c) =>
      var looked := s.pcs[c];
      Move(s, c, if looked.seen.Held? && s.clock - looked.seen.mtime >= LOCK_TIMEOUT_MS
                 then Stale(looked.startedAt, looked.seen, looked.at) else Retrying(looked.startedAt))
    case Unlink(c) =>
      Move(s, c, Retrying(s.pcs[c].startedAt)).(lock := Free, robbed := s.robbed || LiveHolder(s, s.lock))
    case Retry(c) =>
      if s.clock - s.pcs[c].startedAt >= LOCK_TIMEOUT_MS then Settle(s, c, TimedOut)
      else Move(s, c, Opening(s.pcs[c].startedAt))
    case Fill(c) =>
      Move(s, c, Locked).(lock := if s.lock.Held? && s.lock.owner == c then Held(c, s.clock) else s.lock)
    case FailWaiting(c) => Settle(s, c, Failed)
    case FailFilling(c) => Settle(s, c, Failed)
    case Fetch(c) => Move(s, c, Prepared(NextEvent(s.text, s.runId, c.fallback, c.body, c.hasData)))
    case Append(c) =>
      var e := s.pcs[c].event;
      Move(s, c, Written(e)).(text := s.text + Record(e), acks := s.acks + [Ack(c, e, Tail(s.text) != [])])
    case Release(c) => Settle(s, c, Returned(s.pcs[c].event)).(lock := Free)
    case Fail(c, cut, released) =>
      Settle(s, c, Failed).(text := Torn(s, c, cut), lock := if released then Free else s.lock, tears := Tears(s, cut))
    case FailWritten(c, released) => Settle(s, c, Failed).(lock := if released then Free else s.lock)
    case Crash(p) => Kill(s, p)
    case CrashAppending(c, cut) => Kill(s, c.process).(text := Torn(s, c, cut), tears := Tears(s, cut))
    case Tick(ms) => s.(clock := s.clock + ms)
  }

  // ---------- mutual exclusion ----------

  /** Every writer between create and unlink owns the lock file. */
  ghost predicate LockInv(s: State) {
    forall c | c in s.pcs && Critical(s.pcs[c]) :: s.lock.Held? && s.lock.owner == c
  }

  /** Only a takeover from a writer at work breaks that. */
  lemma LockKept(s: State, step: Step)
    requires Enabled(s, step) && LockInv(s) && !(step.Unlink? && LiveHolder(s, s.lock))
    ensures LockInv(Apply(s, step))
  {
    var s' := Apply(s, step);
    forall c | c in s'.pcs && Critical(s'.pcs[c]) ensures s'.lock.Held? && s'.lock.owner == c {
      if step != Create(c) { assert c in s.pcs && Critical(s.pcs[c]) && s.lock.owner == c; }
    }
  }

  // ---------- numbering ----------

  predicate Proper(s: State, c: Call) { c.fallback == s.runId && c.hasData }

  ghost predicate Undisturbed(s: State) {
    s.tears == 0 && forall c | c in s.pcs :: Proper(s, c)
  }

  /** A stat reads a file that exists, in the past, and one about to be unlinked is a minute old. */
  ghost predicate SeenInv(s: State) {
    forall c | c in s.pcs && (s.pcs[c].Looked? || s.pcs[c].Stale?) ::
      && s.pcs[c].seen.Held? && s.pcs[c].at <= s.clock
      && (s.pcs[c].Stale? ==> s.clock - s.pcs[c].seen.mtime >= LOCK_TIMEOUT_MS)
  }

  lemma StepKeepsSeen(s: State, step: Step)
    requires Enabled(s, step) && SeenInv(s)
    ensures SeenInv(Apply(s, step))
  {
    var s' := Apply(s, step);
    forall c | c in s'.pcs && (s'.pcs[c].Looked? || s'.pcs[c].Stale?)
      ensures && s'.pcs[c].seen.Held? && s'.pcs[c].at <= s'.clock
              && (s'.pcs[c].Stale? ==> s'.clock - s'.pcs[c].seen.mtime >= LOCK_TIMEOUT_MS)
    {
      if step != Stat(c) && step != Compare(c) { assert c in s.pcs && s'.pcs[c] == s.pcs[c]; }
    }
  }

  /** A waiter goes on to take over if and only if the file it saw is a minute old by then, and gives up
  if and only if it has itself waited for a minute; until then it tries again. */
  lemma WaitersWaitAMinute(s: State, c: Call)
    ensures Enabled(s, Compare(c)) && SeenInv(s) ==>
              (Apply(s, Compare(c)).pcs[c].Stale? <==> s.clock - s.pcs[c].seen.mtime >= 60_000)
    ensures Enabled(s, Retry(c)) ==>
              var pc := Apply(s, Retry(c)).pcs[c];
              && (pc.TimedOut? <==> s.clock - s.pcs[c].startedAt >= 60_000)
              && (!pc.TimedOut? ==> pc == Opening(s.pcs[c].startedAt))
  {
  }

  // ---------- what the log keeps ----------

  /** The whole records that were appended at a line start and that a reader accepts. */
  function Kept(acks: seq<Ack>, runId: string): seq<Event> {
    if acks == [] then []
    else
      var before, a := Kept(acks[..|acks| - 1], runId), acks[|acks| - 1];
      if !a.joined && IsHarnessEvent(a.event, runId) then before + [a.event] else before
  }

  /** The finished lines of the log hold exactly these, in the order in which they were appended. */
  ghost predicate KeptInv(s: State) {
    Closed(s.text, s.runId) == Kept(s.acks, s.runId)
  }

  lemma StepKeepsKept(s: State, step: Step)
    requires Enabled(s, step) && KeptInv(s)
    ensures KeptInv(Apply(s, step)) && Apply(s, step).runId == s.runId
    ensures Closed(s.text, s.runId) <= Closed(Apply(s, step).text, s.runId)
  {
    var s' := Apply(s, step);
    match step
    case Append(c) => AppendKeepsKept(s, c);
    case Fail(c, cut, _) =>
      if s.pcs[c].Prepared? { TornText(s.text, s.pcs[c].event, cut, s.runId); }
    case CrashAppending(c, cut) => TornText(s.text, s.pcs[c].event, cut, s.runId);
    case _ => assert s'.text == s.text && s'.acks == s.acks;
  }

  lemma AppendKeepsKept(s: State, c: Call)
    requires Enabled(s, Append(c)) && KeptInv(s)
    ensures KeptInv(Apply(s, Append(c)))
    ensures Closed(s.text, s.runId) <= Closed(Apply(s, Append(c)).text, s.runId)
  {
    hide Closed, Tail, Render;
    var a := Ack(c, s.pcs[c].event, Tail(s.text) != []);
    AppendAdds(s.text, a.event, s.runId);
    KeptSnoc(s.acks, a, s.runId);
  }

  lemma KeptSnoc(acks: seq<Ack>, a: Ack, runId: string)
    ensures Kept(acks + [a], runId)
         == Kept(acks, runId) + if !a.joined && IsHarnessEvent(a.event, runId) then [a.event] else []
  {
    assert (acks + [a])[..|acks|] == acks;
  }

  function EventsOf(acks: seq<Ack>): (events: seq<Event>)
    ensures |events| == |acks| && forall i :: 0 <= i < |acks| ==> events[i] == acks[i].event
  {
    seq(|acks|, i requires 0 <= i < |acks| => acks[i].event)
  }

  ghost predicate TextInv(s: State) {
    && Numbered(s.text, s.runId)
    && (forall c | c in s.pcs && s.pcs[c].Prepared? ::
          s.pcs[c].event == NextEvent(s.text, s.runId, c.fallback, c.body, c.hasData))
    && (Undisturbed(s) ==> Tail(s.text) == [] && ParseRunEvents(s.text, s.runId) == EventsOf(s.acks))
  }

  lemma NobodyElsePrepared(s: State, c: Call, d: Call)
    requires LockInv(s) && c in s.pcs && d in s.pcs && Critical(s.pcs[c]) && s.pcs[d].Prepared?
    ensures c == d
  {
  }

  lemma AppendKeepsText(s: State, c: Call)
    requires Enabled(s, Append(c)) && LockInv(s) && TextInv(s)
    ensures TextInv(Apply(s, Append(c)))
  {
    var s', e := Apply(s, Append(c)), s.pcs[c].event;
    AppendKeepsNumbering(s.text, s.runId, c.fallback, c.body, c.hasData);
    forall d | d in s'.pcs && s'.pcs[d].Prepared? ensures false {
      NobodyElsePrepared(s, c, d);
    }
    if Undisturbed(s') {
      UndisturbedBefore(s, s');
      assert Proper(s', c) && s'.pcs[c].Written?;
      ProperAppendIsRead(s, c);
    }
  }

  lemma UndisturbedBefore(s: State, s': State)
    requires Undisturbed(s') && s.tears <= s'.tears && s.runId == s'.runId && s.pcs.Keys <= s'.pcs.Keys
    ensures Undisturbed(s)
  {
    forall c | c in s.pcs ensures Proper(s, c) { assert c in s'.pcs && Proper(s', c); }
  }

  lemma ProperAppendIsRead(s: State, c: Call)
    requires Enabled(s, Append(c)) && TextInv(s) && Undisturbed(s) && Proper(s, c)
    ensures var s' := Apply(s, Append(c));
            Tail(s'.text) == [] && ParseRunEvents(s'.text, s'.runId) == EventsOf(s'.acks)
  {
    hide Tail, ParseRunEvents, Render, Record, Closed;
    var e := s.pcs[c].event;
    AppendKeepsNumbering(s.text, s.runId, c.fallback, c.body, c.hasData);
    NextNumber(s.text, s.runId, c.fallback, c.body, c.hasData);
    NextCarriesData(s.text, s.runId, c.fallback, c.body, c.hasData);
    assert IsHarnessEvent(e, s.runId);
    assert EventsOf(s.acks + [Ack(c, e, false)]) == EventsOf(s.acks) + [e];
  }

  lemma TearKeepsText(s: State, c: Call, cut: nat, s': State)
    requires LockInv(s) && TextInv(s) && c in s.pcs
    requires s.pcs[c].Prepared? ==> cut <= |Render(s.pcs[c].event)|
    requires Critical(s.pcs[c])
    requires s'.text == Torn(s, c, cut) && s'.runId == s.runId && s'.acks == s.acks && s.pcs.Keys <= s'.pcs.Keys
    requires s'.tears > 0 || (s'.text == s.text && s'.tears == s.tears)
    requires forall d | d in s'.pcs && s'.pcs[d].Prepared? :: d != c && d in s.pcs && s'.pcs[d] == s.pcs[d]
    ensures TextInv(s')
  {
    if s.pcs[c].Prepared? {
      TearKeepsNumbering(s.text, s.runId, c.fallback, c.body, c.hasData, cut);
    }
    forall d | d in s'.pcs && s'.pcs[d].Prepared? ensures false {
      NobodyElsePrepared(s, c, d);
    }
    if Undisturbed(s') {
      assert Undisturbed(s) by { assert forall d | d in s.pcs :: d in s'.pcs; }
    }
  }

  lemma TextKept(s: State, step: Step)
    requires Enabled(s, step) && (!s.robbed ==> LockInv(s) && TextInv(s))
    ensures !Apply(s, step).robbed ==> TextInv(Apply(s, step))
  {
    if !s.robbed {
      match step
      case Append(c) => AppendKeepsText(s, c);
      case Fail(c, cut, _) => TearKeepsText(s, c, cut, Apply(s, step));
      case CrashAppending(c, cut) => TearKeepsText(s, c, cut, Apply(s, step));
      case _ => OtherStepsKeepText(s, step);
    }
  }

  lemma OtherStepsKeepText(s: State, step: Step)
    requires Enabled(s, step) && TextInv(s)
    requires !step.Append? && !step.Fail? && !step.CrashAppending?
    ensures TextInv(Apply(s, step))
  {
    var s' := Apply(s, step);
    assert s'.text == s.text && s'.acks == s.acks && s'.runId == s.runId && s'.tears >= s.tears;
    assert s.pcs.Keys <= s'.pcs.Keys;
    if Undisturbed(s') {
      forall c | c in s.pcs ensures Proper(s, c) { assert c in s'.pcs && Proper(s', c); }
    }
  }

  // ---------- records carry what their calls passed ----------

  predicate Carries(c: Call, e: Event, runId: string) {
    e.body == c.body && e.hasData == c.hasData && (e.runId == runId || e.runId == c.fallback)
  }

  predicate HasRecord(pc: Pc) { pc.Prepared? || pc.Written? || pc.Returned? }

  ghost predicate CarryInv(s: State) {
    && (forall c | c in s.pcs && HasRecord(s.pcs[c]) :: Carries(c, s.pcs[c].event, s.runId))
    && (forall a | a in s.acks :: Carries(a.call, a.event, s.runId))
  }

  lemma StepKeepsCarry(s: State, step: Step)
    requires Enabled(s, step) && CarryInv(s)
    ensures CarryInv(Apply(s, step))
  {
    CallsCarry(s, step);
    AcksCarry(s, step);
  }

  lemma CallsCarry(s: State, step: Step)
    requires Enabled(s, step) && CarryInv(s)
    ensures var s' := Apply(s, step);
            forall c | c in s'.pcs && HasRecord(s'.pcs[c]) :: Carries(c, s'.pcs[c].event, s'.runId)
  {
    if step.Fetch? {
      NextCarriesData(s.text, s.runId, step.c.fallback, step.c.body, step.c.hasData);
      hide NextEvent, Carries;
    } else {
      NoNewRecord(s, step);
      hide Enabled, Apply, Carries;
    }
  }

  lemma NoNewRecord(s: State, step: Step)
    requires Enabled(s, step) && !step.Fetch?
    ensures var s' := Apply(s, step);
            && s'.runId == s.runId
            && forall c | c in s'.pcs && HasRecord(s'.pcs[c]) ::
                 c in s.pcs && HasRecord(s.pcs[c]) && s'.pcs[c].event == s.pcs[c].event
  {
  }

  lemma AcksCarry(s: State, step: Step)
    requires Enabled(s, step) && CarryInv(s)
    ensures var s' := Apply(s, step); forall a | a in s'.acks :: Carries(a.call, a.event, s'.runId)
  {
    hide NextEvent;
    var s' := Apply(s, step);
    forall a | a in s'.acks ensures Carries(a.call, a.event, s'.runId) {
      if a !in s.acks { assert step == Append(a.call); }
    }
  }

  // ---------- who gets which record ----------

  predicate Acked(s: State, c: Call, e: Event) {
    exists joined: bool :: Ack(c, e, joined) in s.acks
  }

  ghost predicate AckInv(s: State) {
    && (forall i | 0 <= i < |s.acks| ::
          s.acks[i].call in s.pcs
          && (s.pcs[s.acks[i].call] in {Written(s.acks[i].event), Returned(s.acks[i].event), Failed, Crashed}))
    && (forall i, j | 0 <= i < j < |s.acks| :: s.acks[i].call != s.acks[j].call)
    && (forall c | c in s.pcs && (s.pcs[c].Written? || s.pcs[c].Returned?) :: Acked(s, c, s.pcs[c].event))
  }

  lemma AppendKeepsAcks(s: State, c: Call)
    requires Enabled(s, Append(c)) && AckInv(s)
    ensures AckInv(Apply(s, Append(c)))
  {
    var s', e := Apply(s, Append(c)), s.pcs[c].event;
    var a := Ack(c, e, Tail(s.text) != []);
    assert s'.acks[|s.acks|] == a;
    forall d | d in s'.pcs && (s'.pcs[d].Written? || s'.pcs[d].Returned?) ensures Acked(s', d, s'.pcs[d].event) {
      if d == c {
        assert Ack(c, e, a.joined) in s'.acks;
      } else {
        assert Acked(s, d, s.pcs[d].event);
        var joined :| Ack(d, s.pcs[d].event, joined) in s.acks;
        assert Ack(d, s.pcs[d].event, joined) in s'.acks;
      }
    }
  }

  lemma MovesKeepAcks(s: State, s': State)
    requires AckInv(s) && s'.acks == s.acks && s.pcs.Keys <= s'.pcs.Keys
    requires forall c | c in s.pcs :: s'.pcs[c] == s.pcs[c] || s'.pcs[c].Crashed?
                                   || !(s.pcs[c].Written? || s.pcs[c].Returned? || s.pcs[c].Failed? || s.pcs[c].Crashed?)
                                   || (s.pcs[c].Written? && s'.pcs[c] in {Returned(s.pcs[c].event), Failed})
    requires forall c | c in s'.pcs && (s'.pcs[c].Written? || s'.pcs[c].Returned?) ::
               c in s.pcs && (s.pcs[c].Written? || s.pcs[c].Returned?) && s'.pcs[c].event == s.pcs[c].event
    ensures AckInv(s')
  {
  }

  lemma DyingKeepsAcks(s: State, step: Step)
    requires Enabled(s, step) && AckInv(s) && (step.Crash? || step.CrashAppending?)
    ensures AckInv(Apply(s, step))
  {
    MovesKeepAcks(s, Apply(s, step));
  }

  lemma AckKept(s: State, step: Step)
    requires Enabled(s, step) && AckInv(s)
    ensures AckInv(Apply(s, step))
  {
    if step.Append? {
      AppendKeepsAcks(s, step.c);
    } else if step.Crash? || step.CrashAppending? {
      DyingKeepsAcks(s, step);
    } else {
      MovesKeepAcks(s, Apply(s, step));
    }
  }

  // ---------- callers of one process are served in order ----------

  ghost predicate Ascending(q: seq<Call>, process: nat, tickets: map<Call, nat>) {
    && (forall c | c in q :: c.process == process && c in tickets)
    && (forall i, j | 0 <= i < j < |q| :: tickets[q[i]] < tickets[q[j]])
  }

  ghost predicate TicketsInv(s: State) {
    && s.tickets.Keys == s.pcs.Keys
    && (forall c | c in s.tickets :: s.tickets[c] < s.entered)
    && (forall p | p in s.queues :: Ascending(s.queues[p], p, s.tickets))
  }

  predicate AtHead(s: State, c: Call) {
    Queue(s, c.process) != [] && Queue(s, c.process)[0] == c
  }

  ghost predicate HeadsInv(s: State) {
    forall c | c in s.pcs && Running(s.pcs[c]) :: AtHead(s, c)
  }

  predicate Before(s: State, c: Call, d: Call) {
    c in s.tickets && d in s.tickets && s.tickets[c] < s.tickets[d]
  }

  /** Every acknowledged call entered before whatever its process still has queued. */
  ghost predicate AcksFirst(s: State) {
    forall a, q | a in s.acks && q in Queue(s, a.call.process) :: q == a.call || Before(s, a.call, q)
  }

  ghost predicate ServedInOrder(s: State) {
    forall j, k | 0 <= j < k < |s.acks| && s.acks[j].call.process == s.acks[k].call.process ::
      Before(s, s.acks[j].call, s.acks[k].call)
  }

  ghost predicate FifoInv(s: State) {
    TicketsInv(s) && HeadsInv(s) && AcksFirst(s) && ServedInOrder(s)
  }

  predicate Enters(s: State, c: Call, s': State) {
    && c !in s.pcs
    && s'.pcs == s.pcs[c := Queued] && s'.queues == s.queues[c.process := Queue(s, c.process) + [c]]
    && s'.tickets == s.tickets[c := s.entered] && s'.entered == s.entered + 1 && s'.acks == s.acks
  }

  lemma EnterKeepsFifo(s: State, c: Call, s': State)
    requires FifoInv(s) && AckInv(s) && Enters(s, c, s')
    ensures FifoInv(s')
  {
    hide AckInv, TicketsInv, HeadsInv, AcksFirst, ServedInOrder;
    EnterKeepsTickets(s, c, s');
    EnterKeepsHeads(s, c, s');
    AckedEarlier(s, c);
    EnterKeepsAcksFirst(s, c, s');
    EnterKeepsOrder(s, c, s');
  }

  lemma EnterKeepsTickets(s: State, c: Call, s': State)
    requires TicketsInv(s) && Enters(s, c, s')
    ensures TicketsInv(s')
  {
    forall p | p in s'.queues ensures Ascending(s'.queues[p], p, s'.tickets) {
      assert Ascending(Queue(s, p), p, s.tickets);
    }
  }

  lemma EnterKeepsHeads(s: State, c: Call, s': State)
    requires HeadsInv(s) && Enters(s, c, s')
    ensures HeadsInv(s')
  {
    forall d | d in s'.pcs && Running(s'.pcs[d]) ensures AtHead(s', d) {
      assert AtHead(s, d);
    }
  }

  lemma AckedEarlier(s: State, c: Call)
    requires AckInv(s) && TicketsInv(s) && c !in s.pcs
    ensures forall a | a in s.acks :: a.call in s.tickets && a.call != c
  {
    forall a | a in s.acks ensures a.call in s.tickets && a.call != c {
      var i :| 0 <= i < |s.acks| && s.acks[i] == a;
    }
  }

  lemma EnterKeepsOrder(s: State, c: Call, s': State)
    requires ServedInOrder(s) && Enters(s, c, s')
    requires forall a | a in s.acks :: a.call in s.tickets && a.call != c
    ensures ServedInOrder(s')
  {
    forall j, k | 0 <= j < k < |s'.acks| && s'.acks[j].call.process == s'.acks[k].call.process
      ensures Before(s', s'.acks[j].call, s'.acks[k].call)
    {
      assert s'.acks[j] in s'.acks && s'.acks[k] in s'.acks;
      assert Before(s, s.acks[j].call, s.acks[k].call);
    }
  }

  lemma EnterKeepsAcksFirst(s: State, c: Call, s': State)
    requires TicketsInv(s) && AcksFirst(s) && Enters(s, c, s')
    requires forall a | a in s.acks :: a.call in s.tickets && a.call != c
    ensures AcksFirst(s')
  {
    forall a, q | a in s'.acks && q in Queue(s', a.call.process) ensures q == a.call || Before(s', a.call, q) {
      if q != c {
        assert q in Queue(s, a.call.process);
        assert q == a.call || Before(s, a.call, q);
      }
    }
  }

  /** Nothing else runs in the process of a running call. */
  lemma SettleKeepsFifo(s: State, c: Call, s': State)
    requires FifoInv(s) && c in s.pcs && Running(s.pcs[c])
    requires c in s'.pcs && !Running(s'.pcs[c]) && s'.pcs == s.pcs[c := s'.pcs[c]]
    requires s'.queues == s.queues[c.process := Queue(s, c.process)[1..]]
    requires s'.tickets == s.tickets && s'.entered == s.entered && s'.acks == s.acks
    ensures FifoInv(s')
  {
    var q, q' := Queue(s, c.process), Queue(s', c.process);
    assert AtHead(s, c) && q == [c] + q';
    assert Ascending(q, c.process, s.tickets);
    assert Ascending(q', c.process, s'.tickets) by {
      forall d | d in q' ensures d in q {}
      forall i, j | 0 <= i < j < |q'| ensures s.tickets[q'[i]] < s.tickets[q'[j]] {
        assert q'[i] == q[i + 1] && q'[j] == q[j + 1];
      }
    }
    assert forall d, e | Before(s, d, e) :: Before(s', d, e);
    forall d | d in s'.pcs && Running(s'.pcs[d]) ensures AtHead(s', d) {
      assert AtHead(s, d);
    }
    forall a, e | a in s'.acks && e in Queue(s', a.call.process) ensures e == a.call || Before(s', a.call, e) {
      assert e in Queue(s, a.call.process);
    }
  }

  lemma KillKeepsFifo(s: State, process: nat, s': State)
    requires FifoInv(s)
    requires s'.pcs == Kill(s, process).pcs && s'.queues == s.queues[process := []]
    requires s'.tickets == s.tickets && s'.entered == s.entered && s'.acks == s.acks
    ensures FifoInv(s')
  {
    assert forall d, e | Before(s, d, e) :: Before(s', d, e);
    forall d | d in s'.pcs && Running(s'.pcs[d]) ensures AtHead(s', d) {
      assert AtHead(s, d);
    }
    forall a, e | a in s'.acks && e in Queue(s', a.call.process) ensures e == a.call || Before(s', a.call, e) {
      assert e in Queue(s, a.call.process);
    }
  }

  lemma MoveKeepsFifo(s: State, c: Call, s': State)
    requires FifoInv(s) && c in s.pcs && c in s'.pcs && s'.pcs == s.pcs[c := s'.pcs[c]]
    requires Running(s'.pcs[c]) ==> Running(s.pcs[c]) || AtHead(s, c)
    requires s'.queues == s.queues && s'.tickets == s.tickets && s'.entered == s.entered && s'.acks == s.acks
    ensures FifoInv(s')
  {
    assert forall d, e | Before(s, d, e) :: Before(s', d, e);
    forall d | d in s'.pcs && Running(s'.pcs[d]) ensures AtHead(s', d) {
      assert AtHead(s, d);
    }
    forall a, e | a in s'.acks && e in Queue(s', a.call.process) ensures e == a.call || Before(s', a.call, e) {
      assert e in Queue(s, a.call.process);
    }
  }

  /** The call at the head of its queue entered before the others in it, and after those acknowledged. */
  lemma AcknowledgeKeepsFifo(s: State, a: Ack, s': State)
    requires FifoInv(s) && AckInv(s) && AtHead(s, a.call) && s' == s.(acks := s.acks + [a])
    requires forall b | b in s.acks :: b.call != a.call
    ensures FifoInv(s')
  {
    var c, queue := a.call, Queue(s, a.call.process);
    assert Ascending(queue, c.process, s.tickets) && c in queue;
    assert forall d, e :: Before(s, d, e) == Before(s', d, e);
    assert forall d :: AtHead(s, d) == AtHead(s', d);
    forall b, q | b in s'.acks && q in Queue(s', b.call.process) ensures q == b.call || Before(s', b.call, q) {
      if b !in s.acks { assert b == a; }
    }
    forall j, k | 0 <= j < k < |s'.acks| && s'.acks[j].call.process == s'.acks[k].call.process
      ensures Before(s', s'.acks[j].call, s'.acks[k].call)
    {
      if k < |s.acks| {
        assert Before(s, s.acks[j].call, s.acks[k].call);
      } else {
        assert s.acks[j] in s.acks && s'.acks[k] == a;
      }
    }
  }

  lemma AppendKeepsFifo(s: State, c: Call)
    requires Enabled(s, Append(c)) && FifoInv(s) && AckInv(s)
    ensures FifoInv(Apply(s, Append(c)))
  {
    var a := Ack(c, s.pcs[c].event, Tail(s.text) != []);
    assert AtHead(s, c);
    forall b | b in s.acks ensures b.call != c {
      var i :| 0 <= i < |s.acks| && s.acks[i] == b;
    }
    var acked := s.(acks := s.acks + [a]);
    AcknowledgeKeepsFifo(s, a, acked);
    MoveKeepsFifo(acked, c, Apply(s, Append(c)));
  }

  predicate Settles(s: State, step: Step)
    requires Enabled(s, step)
  {
    match step
    case Retry(c) => s.clock - s.pcs[c].startedAt >= LOCK_TIMEOUT_MS
    case FailWaiting(_) => true
    case FailFilling(_) => true
    case Release(_) => true
    case Fail(_, _, _) => true
    case FailWritten(_, _) => true
    case _ => false
  }

  lemma SettlingKeepsFifo(s: State, step: Step)
    requires Enabled(s, step) && FifoInv(s) && Settles(s, step)
    ensures FifoInv(Apply(s, step))
  {
    assert AtHead(s, step.c);
    SettleKeepsFifo(s, step.c, Apply(s, step));
  }

  lemma MovingKeepsFifo(s: State, step: Step)
    requires Enabled(s, step) && FifoInv(s) && !Settles(s, step)
    requires !step.Enter? && !step.Append? && !step.Crash? && !step.CrashAppending? && !step.Tick?
    ensures FifoInv(Apply(s, step))
  {
    MoveKeepsFifo(s, step.c, Apply(s, step));
  }

  lemma DyingKeepsFifo(s: State, step: Step)
    requires Enabled(s, step) && FifoInv(s) && (step.Crash? || step.CrashAppending?)
    ensures FifoInv(Apply(s, step))
  {
    KillKeepsFifo(s, if step.Crash? then step.process else step.c.process, Apply(s, step));
  }

  lemma EnteringKeepsFifo(s: State, c: Call)
    requires Enabled(s, Enter(c)) && FifoInv(s) && AckInv(s)
    ensures FifoInv(Apply(s, Enter(c)))
  {
    EnterKeepsFifo(s, c, Apply(s, Enter(c)));
  }

  lemma FifoKept(s: State, step: Step)
    requires Enabled(s, step) && FifoInv(s) && AckInv(s)
    ensures FifoInv(Apply(s, step))
  {
    if Settles(s, step) {
      SettlingKeepsFifo(s, step);
    } else if step.Crash? || step.CrashAppending? {
      DyingKeepsFifo(s, step);
    } else if step.Enter? {
      EnteringKeepsFifo(s, step.c);
    } else if step.Append? {
      AppendKeepsFifo(s, step.c);
    } else if step.Tick? {
      assert forall c, d :: Before(Apply(s, step), c, d) == Before(s, c, d);
    } else {
      MovingKeepsFifo(s, step);
    }
  }

  // ---------- runs ----------

  /** The run from s that takes these steps, as the state it ends in; None when a step is not possible. */
  function Run(s: State, steps: seq<Step>): Option<State> {
    if steps == [] then Some(s)
    else match Run(s, steps[..|steps| - 1])
      case None => None
      case Some(mid) => if Enabled(mid, steps[|steps| - 1]) then Some(Apply(mid, steps[|steps| - 1])) else None
  }

  ghost predicate Inv(s: State) {
    AckInv(s) && FifoInv(s) && KeptInv(s) && SeenInv(s) && CarryInv(s) && (!s.robbed ==> LockInv(s) && TextInv(s))
  }

  lemma {:induction false} RunKeepsInv(runId: string, clock: int, steps: seq<Step>)
    requires Run(Init(runId, clock), steps).Some?
    ensures Inv(Run(Init(runId, clock), steps).value)
    ensures Run(Init(runId, clock), steps).value.runId == runId
  {
    if steps == [] {
      EmptyTextIsNumbered(runId);
      assert Closed([], runId) == [];
    } else {
      RunKeepsInv(runId, clock, steps[..|steps| - 1]);
      var mid := Run(Init(runId, clock), steps[..|steps| - 1]).value;
      var step := steps[|steps| - 1];
      if !mid.robbed && !Apply(mid, step).robbed { LockKept(mid, step); }
      TextKept(mid, step);
      StepKeepsKept(mid, step);
      StepKeepsSeen(mid, step);
      StepKeepsCarry(mid, step);
      AckKept(mid, step);
      FifoKept(mid, step);
    }
  }

  predicate AtMostOneWriter(s: State) {
    forall c, d | c in s.pcs && d in s.pcs && Critical(s.pcs[c]) && Critical(s.pcs[d]) :: c == d
  }

  /** In every run in which no stale takeover unlinks the lock file of a writer still at work, at most
  one writer is between create and unlink. */
  lemma {:induction false} MutualExclusion(runId: string, clock: int, steps: seq<Step>)
    requires Run(Init(runId, clock), steps).Some? && !Run(Init(runId, clock), steps).value.robbed
    ensures AtMostOneWriter(Run(Init(runId, clock), steps).value)
  {
    RunKeepsInv(runId, clock, steps);
  }

  /** In every such run, whatever crashed or failed appends left behind, a reader of the log sees
  exactly 1, 2, ..., m in file order. */
  lemma {:induction false} ReaderSeesEverySeqOnce(runId: string, clock: int, steps: seq<Step>)
    requires Run(Init(runId, clock), steps).Some? && !Run(Init(runId, clock), steps).value.robbed
    ensures Counts(ParseRunEvents(Run(Init(runId, clock), steps).value.text, runId))
  {
    RunKeepsInv(runId, clock, steps);
  }

  /** The log is exactly the appends that wrote a whole record: numbered 1, 2, ..., n in file order, each
  record belonging to one call and carrying what that call passed, every returned record in the log,
  and the calls of one process in the order in which they entered. */
  ghost predicate LogIsAppends(s: State) {
    && ParseRunEvents(s.text, s.runId) == EventsOf(s.acks)
    && (forall i :: 0 <= i < |s.acks| ==> s.acks[i].event.no == i + 1)
    && (forall i :: 0 <= i < |s.acks| ==>
          ParseRunEvents(s.text, s.runId)[i].body == s.acks[i].call.body && s.acks[i].event.hasData == s.acks[i].call.hasData)
    && (forall i, j :: 0 <= i < j < |s.acks| ==> s.acks[i].call != s.acks[j].call)
    && (forall c | c in s.pcs && s.pcs[c].Returned? :: Acked(s, c, s.pcs[c].event) && s.pcs[c].event.body == c.body)
    && ServedInOrder(s)
  }

  /** That holds with crashes and failures anywhere, as long as none of them leaves a part of a record
  behind, and with callers that name the log's own run and pass some data. */
  lemma {:induction false} LogIsTheAppends(runId: string, clock: int, steps: seq<Step>)
    requires Run(Init(runId, clock), steps).Some?
    requires var s := Run(Init(runId, clock), steps).value; !s.robbed && Undisturbed(s)
    ensures LogIsAppends(Run(Init(runId, clock), steps).value)
  {
    RunKeepsInv(runId, clock, steps);
    var s := Run(Init(runId, clock), steps).value;
    forall i | 0 <= i < |s.acks| ensures s.acks[i].event.no == i + 1 {
      assert ParseRunEvents(s.text, runId)[i] == s.acks[i].event;
    }
    forall i | 0 <= i < |s.acks|
      ensures ParseRunEvents(s.text, s.runId)[i].body == s.acks[i].call.body && s.acks[i].event.hasData == s.acks[i].call.hasData
    {
      assert s.acks[i] in s.acks && Carries(s.acks[i].call, s.acks[i].event, s.runId);
    }
  }

  /** Two different calls never get the same number back in such a run. */
  lemma {:induction false} NumbersAreNotShared(runId: string, clock: int, steps: seq<Step>, c: Call, d: Call)
    requires Run(Init(runId, clock), steps).Some?
    requires var s := Run(Init(runId, clock), steps).value;
             && !s.robbed && Undisturbed(s) && c != d
             && c in s.pcs && d in s.pcs && s.pcs[c].Returned? && s.pcs[d].Returned?
    ensures var s := Run(Init(runId, clock), steps).value; s.pcs[c].event.no != s.pcs[d].event.no
  {
    LogIsTheAppends(runId, clock, steps);
    var s := Run(Init(runId, clock), steps).value;
    var i := AckOf(s, c);
    var j := AckOf(s, d);
  }

  lemma AckOf(s: State, c: Call) returns (i: nat)
    requires c in s.pcs && s.pcs[c].Returned? && Acked(s, c, s.pcs[c].event)
    ensures i < |s.acks| && s.acks[i].call == c && s.acks[i].event == s.pcs[c].event
  {
    var joined :| Ack(c, s.pcs[c].event, joined) in s.acks;
    i :| 0 <= i < |s.acks| && s.acks[i] == Ack(c, s.pcs[c].event, joined);
  }

  /** In every run whatsoever, the finished lines of the log are exactly the acceptable records that
  were appended at a line start: what is missing was joined to an unfinished line, or is not acceptable.
  Every record, in the log or returned, carries what its call passed. */
  lemma {:induction false} FinishedLinesAreTheKeptAppends(runId: string, clock: int, steps: seq<Step>)
    requires Run(Init(runId, clock), steps).Some?
    ensures var s := Run(Init(runId, clock), steps).value;
            && Closed(s.text, runId) == Kept(s.acks, runId)
            && (forall a | a in s.acks :: Carries(a.call, a.event, runId))
            && forall c | c in s.pcs && s.pcs[c].Returned? ::
                 Acked(s, c, s.pcs[c].event) && Carries(c, s.pcs[c].event, runId)
  {
    RunKeepsInv(runId, clock, steps);
  }

  /** From every state on, whatever follows, a finished record a reader sees is never lost or moved. */
  lemma {:induction false} FinishedRecordsStay(s: State, steps: seq<Step>)
    requires KeptInv(s) && Run(s, steps).Some?
    ensures KeptInv(Run(s, steps).value) && Run(s, steps).value.runId == s.runId
    ensures Closed(s.text, s.runId) <= Closed(Run(s, steps).value.text, s.runId)
  {
    if steps != [] {
      FinishedRecordsStay(s, steps[..|steps| - 1]);
      StepKeepsKept(Run(s, steps[..|steps| - 1]).value, steps[|steps| - 1]);
    }
  }

  // ---------- the ways numbering fails ----------

  /** After a torn append, an append can return a number that the next append returns again: its own
  record is glued to the torn one, and no reader ever sees it. */
  lemma TornAppendReissuesNumber(t: Text, runId: string, first: string, second: string)
    requires Numbered(t, runId) && Tail(t) != [] && Decode(Tail(t)) == None
    ensures var e := NextEvent(t, runId, runId, first, true);
            var t' := t + Record(e);
            var e' := NextEvent(t', runId, runId, second, true);
            e'.no == e.no && ParseRunEvents(t', runId) == ParseRunEvents(t, runId)
  {
    AppendKeepsNumbering(t, runId, runId, first, true);
    ReadFromTheEnd(t, runId);
    NextNumber(t, runId, runId, first, true);
    var t' := t + Record(NextEvent(t, runId, runId, first, true));
    NextNumber(t', runId, runId, second, true);
    assert Closed(t, runId) + [] == Closed(t, runId);
  }

  /** A caller whose run id is not the name of the log's directory is given number 1 on a fresh log,
  and so is the next one; a caller with the right run id makes the next one get 2. */
  lemma SecondAppendGetsTwoIffRunIdMatches(runId: string, fallback: string, first: string, second: string)
    ensures var e := NextEvent([], runId, fallback, first, true);
            var e' := NextEvent(Record(e), runId, fallback, second, true);
            && e.no == 1
            && (e'.no == 2 <==> fallback == runId)
            && (e'.no == 1 <==> fallback != runId)
  {
    EmptyTextIsNumbered(runId);
    var e := NextEvent([], runId, fallback, first, true);
    NextNumber([], runId, fallback, first, true);
    AppendAtLineStart([], e, runId);
    assert [] + Record(e) == Record(e);
    NextNumber(Record(e), runId, fallback, second, true);
    assert Closed([], runId) == [];
  }
}
