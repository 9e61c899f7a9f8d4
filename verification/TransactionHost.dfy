/**
 The world in which automation transactions run: the four durable files, Home
 Assistant's live configuration, and everything that can go wrong between two
 accesses to them.

 Every file access first takes one decision from `schedule`: an external
 editor may just have rewritten `automations.yaml`, and the access itself may
 succeed, raise, or find that the process has died. Proving a method for every
 schedule proves it for every interleaving, failure and crash.
 */
module TransactionHost {
  import opened Common
  import opened Config

  // ----- file contents -------------------------------------------------------

  /**
   The bytes of `automations.yaml`, told apart by how they came about: the
   serialisation of a list, other text that parses to a list, or text that
   does not parse.
   */
  datatype Content =
    | Dumped(automations: seq<Automation>)
    | Foreign(text: string, parsed: seq<Automation>)
    | Unreadable(text: string)

  datatype File = Missing | Bytes(content: Content)

  /** A fingerprint that is injective in the bytes; an absent file has its own. */
  datatype Digest = NoFile | Sha(content: Content)

  function DigestOf(file: File): Digest {
    match file
    case Missing => NoFile
    case Bytes(content) => Sha(content)
  }

  /** The file a digest stands for. */
  function FileOf(digest: Digest): (file: File)
    ensures DigestOf(file) == digest
  {
    match digest
    case NoFile => Missing
    case Sha(content) => Bytes(content)
  }

  /** A missing file parses as no automations; unreadable text does not parse. */
  function Load(file: File): Option<seq<Automation>> {
    match file
    case Missing => Some([])
    case Bytes(Dumped(automations)) => Some(automations)
    case Bytes(Foreign(_, parsed)) => Some(parsed)
    case Bytes(Unreadable(_)) => None
  }

  /** What Home Assistant runs after it has started on this file; nothing when the file does not parse. */
  function Booted(file: File): seq<Automation> {
    match Load(file)
    case Some(automations) => automations
    case None => []
  }

  /** The file after HomeIntent has written `automations`. */
  function Saved(automations: seq<Automation>): (file: File)
    ensures Load(file) == Some(automations)
  {
    Bytes(Dumped(automations))
  }

  /** Bytes that parsing and serialising again reproduces. */
  predicate Canonical(file: File) {
    file.Bytes? && file.content.Dumped?
  }

  // ----- records ---------------------------------------------------------------

  datatype Operation =
    | Create | Delete | Enable | Disable | Reschedule | SetMaxRuns
    | ReplaceActions | ReplaceTriggers | ReplaceConditions | Expire | Rollback

  datatype TransactionState = Prepared | YamlWritten

  datatype Transaction = Transaction(
    operation: Operation,
    automationId: Id,
    createdAt: nat,
    before: Digest,
    after: Option<Digest>,
    beforeAutomations: seq<Automation>,
    afterAutomations: seq<Automation>,
    state: TransactionState)

  /** A point in time as stored: a local reading and the zone it carries, if any. */
  datatype Stamp = Stamp(local: int, zone: Option<int>)

  datatype Entry = Entry(
    sourceText: string,
    createdByHomeIntent: bool,
    version: int,
    scheduledFor: Option<Stamp>,
    once: bool,
    maxRuns: Option<int>,
    runCount: int)

  type Metadata = map<Id, Entry>

  datatype HistoryEntry = HistoryEntry(
    operation: Operation,
    automationId: Id,
    createdAt: nat,
    automations: seq<Automation>,
    metadata: Metadata)

  datatype Snapshot = Snapshot(automations: seq<Automation>, digest: Digest)

  // ----- what an access may run into ------------------------------------------

  /** How an access or an operation ends. A crash cannot be caught. */
  datatype Result = Done | Raised | RaisedLate | Crashed {
    // `RaisedLate` is an exception like any other to the caller; it marks one
    // that a step after the clearing of the journal raised.
    predicate IsFailure() { !Done? }

    function PropagateFailure(): Result
      requires IsFailure()
    {
      this
    }
  }

  datatype Verdict = Proceed | Fail | Crash

  datatype Decision = Decision(external: Option<File>, verdict: Verdict)

  /** How many of the decisions are a failure or a crash. */
  function Faults(schedule: seq<Decision>): nat {
    if schedule == [] then 0 else Faults(schedule[1..]) + if schedule[0].verdict.Proceed? then 0 else 1
  }

  /** The next `n` accesses succeed. */
  predicate Smooth(schedule: seq<Decision>, n: nat)
    decreases n
  {
    n == 0 || schedule == [] || (schedule[0].verdict.Proceed? && Smooth(schedule[1..], n - 1))
  }

  /** What is left of a schedule after `n` accesses. */
  function Later(schedule: seq<Decision>, n: nat): seq<Decision>
    decreases n
  {
    if n == 0 || schedule == [] then schedule else Later(schedule[1..], n - 1)
  }

  lemma {:induction false} SmoothInStages(schedule: seq<Decision>, m: nat, n: nat)
    ensures Smooth(schedule, m + n) <==> Smooth(schedule, m) && Smooth(Later(schedule, m), n)
    ensures Later(schedule, m + n) == Later(Later(schedule, m), n)
    decreases m
  {
    if m > 0 && schedule != [] {
      SmoothInStages(schedule[1..], m - 1, n);
    } else if schedule == [] {
      assert Later(schedule, m) == [];
    }
  }

  lemma {:induction false} SmoothMeetsNoFault(schedule: seq<Decision>, n: nat)
    requires Smooth(schedule, n)
    ensures Faults(Later(schedule, n)) == Faults(schedule)
    decreases n
  {
    if n > 0 && schedule != [] {
      SmoothMeetsNoFault(schedule[1..], n - 1);
    }
  }

  /** The access after the next `n` is the first to meet a failure. */
  predicate FailsAfter(schedule: seq<Decision>, n: nat) {
    Smooth(schedule, n) && Later(schedule, n) != [] && Later(schedule, n)[0].verdict.Fail?
  }

  lemma FailureAfterSmooth(schedule: seq<Decision>, n: nat)
    requires Smooth(schedule, n)
    ensures Faults(Later(schedule, n)) == Faults(schedule)
    ensures FailsAfter(schedule, n) <==> FailsAfter(Later(schedule, n), 0)
  {
    SmoothMeetsNoFault(schedule, n);
  }

  /** The compare-and-replace of the YAML file. */
  datatype WriteResult =
    | Written(after: Digest)
    | Conflict(writeStarted: bool)
    | WriteFailed
    | WriteCrashed

  /** Who gave the file its bytes; those it had to begin with were found. */
  datatype Writer = Found | External | HomeIntent

  /** Why a replacement of the YAML file is entitled to discard the bytes it replaces. */
  datatype Overwrite =
    // computed from `basis`, the list this operation's own snapshot parsed
    | Forward(victim: File, basis: seq<Automation>)
    // taking back a transaction; `author` put the discarded bytes there
    | TakeBack(victim: File, author: Writer)

  /** The replaced bytes were either parsed into the new list or HomeIntent's own. */
  predicate Entitled(o: Overwrite) {
    match o
    case Forward(victim, basis) => Load(victim) == Some(basis)
    case TakeBack(_, author) => author == HomeIntent
  }

  /** What the proofs remember about the bytes of the YAML file. */
  datatype Trace = Trace(
    // every content the file has had
    past: set<File>,
    // an external editor brought back a content from `past`
    replayed: bool,
    author: Writer,
    // every content an external editor gave the file; saving it unchanged is no edit
    edits: set<File>,
    // every content a journalled transaction was about to write
    intended: set<File>,
    overwrites: seq<Overwrite>)
  {
    /** A transaction took back bytes of its own that an editor had written as well. */
    predicate Coincides(o: Overwrite) {
      o.TakeBack? && o.victim in edits && o.victim in intended
    }

    /** Every replacement was entitled to what it discarded, but for such coincidences. */
    predicate Justified() {
      forall o :: o in overwrites ==> Entitled(o) || Coincides(o)
    }

    /** The open transaction can tell its own bytes. */
    predicate OwnBytesKnown(yaml: File, t: Transaction) {
      var own := Saved(t.afterAutomations);
      && t.after == Some(DigestOf(own))
      && own in intended && (t.state.YamlWritten? ==> own in past)
      && (yaml == own && (t.state.YamlWritten? || DigestOf(yaml) != t.before) ==> author == HomeIntent || own in edits)
    }

    predicate Consistent(yaml: File, journal: Option<Transaction>) {
      && (author.External? ==> yaml in edits)
      && (!replayed ==> yaml in past && Justified() && (journal.Some? ==> OwnBytesKnown(yaml, journal.value)))
    }

    /** From `this` on, only external editors wrote the file, if anyone did. */
    predicate LeadsTo(later: Trace, yaml: File, now: File) {
      && later.past >= past && later.edits >= edits
      && later.intended == intended && later.overwrites == overwrites
      && (later.author.Found? ==> author.Found? && now == yaml)
      && (!later.replayed ==> !replayed && ((now == yaml && later.author == author) || now !in past))
    }
  }

  datatype State = State(
    yaml: File,
    journal: Option<Transaction>,
    history: seq<HistoryEntry>,
    metadata: Metadata,
    live: seq<Automation>)

  class Host {
    const limit: nat
    const historyAvailable: bool
    // Whether external editors are at work at all.
    const exposed: bool

    var yaml: File
    var journal: Option<Transaction>
    var history: seq<HistoryEntry>
    var metadata: Metadata
    var live: seq<Automation>
    var clock: nat
    var schedule: seq<Decision>

    ghost var trace: Trace

    function Now(): State
      reads this
    {
      State(yaml, journal, history, metadata, live)
    }

    /** The failures and crashes that may still come. */
    function Pending(): nat
      reads `schedule
    {
      Faults(schedule)
    }

    /** No external editor interferes. */
    predicate Quiet() {
      !exposed
    }

    /** What holds at every moment of every run. */
    ghost predicate Valid()
      reads this
    {
      && limit >= 1
      && (forall e :: e in history ==> e.createdAt < clock)
      && (journal.Some? ==> journal.value.createdAt < clock)
      && trace.Consistent(yaml, journal)
    }

    /** Between two moments, only an external editor may have changed the YAML file. */
    twostate predicate OnlyEnvironment()
      reads this
    {
      && Pending() <= old(Pending())
      && (Quiet() ==> yaml == old(yaml) && trace == old(trace))
      && old(trace).LeadsTo(trace, old(yaml), yaml)
    }

    /** A failure or crash that was scheduled has been met. */
    twostate predicate Faulted()
      reads this
    {
      Pending() < old(Pending())
    }

    /** Two of them have been met. */
    twostate predicate FaultedTwice()
      reads this
    {
      Pending() + 2 <= old(Pending())
    }

    /** It takes `n` accesses to be done, and is done exactly when they all succeed. */
    twostate predicate Took(done: bool, n: nat)
      reads this
    {
      (done <==> Smooth(old(schedule), n)) && (done ==> schedule == Later(old(schedule), n))
    }

    constructor (limit: nat, historyAvailable: bool, exposed: bool, yaml: File, history: seq<HistoryEntry>,
                 metadata: Metadata, clock: nat, schedule: seq<Decision>)
      requires limit >= 1
      requires forall e :: e in history ==> e.createdAt < clock
      ensures Valid() && journal == None && trace == Trace({yaml}, false, Found, {}, {}, [])
      ensures this.limit == limit && this.historyAvailable == historyAvailable && this.exposed == exposed
      ensures this.yaml == yaml && this.history == history && this.metadata == metadata
      ensures this.schedule == schedule
      ensures live == Booted(yaml)
    {
      this.limit, this.historyAvailable, this.exposed := limit, historyAvailable, exposed;
      this.yaml, this.journal, this.history, this.metadata := yaml, None, history, metadata;
      this.live := Booted(yaml);
      this.clock, this.schedule := clock, schedule;
      this.trace := Trace({yaml}, false, Found, {}, {}, []);
    }

    /** One scheduling point. */
    method Await() returns (r: Result)
      requires Valid()
      modifies `schedule, `yaml, `trace
      ensures Valid() && OnlyEnvironment()
      ensures r != Done ==> Faulted()
      ensures r != RaisedLate
      ensures Took(r.Done?, 1) && (r.Raised? <==> FailsAfter(old(schedule), 0))
      ensures r != Done ==> Pending() + 1 == old(Pending())
    {
      if schedule == [] {
        return Done;
      }
      var d := schedule[0];
      schedule := schedule[1..];
      if exposed && d.external.Some? && d.external.value != yaml {
        yaml := d.external.value;
        trace := trace.(past := trace.past + {yaml}, replayed := trace.replayed || yaml in trace.past,
                        author := External, edits := trace.edits + {yaml});
      }
      r := match d.verdict case Proceed => Done case Fail => Raised case Crash => Crashed;
    }

    // ----- automations.yaml ---------------------------------------------------

    method FileDigest() returns (r: Result, digest: Digest)
      requires Valid()
      modifies `schedule, `yaml, `trace
      ensures Valid() && OnlyEnvironment()
      ensures r != Done ==> Faulted()
      ensures r != RaisedLate
      ensures r.Done? ==> digest == DigestOf(yaml)
      ensures Took(r.Done?, 1)
    {
      digest := NoFile;
      :- Await();
      return Done, DigestOf(yaml);
    }

    /** Reads the list only when the bytes kept the same fingerprint meanwhile. */
    method ReadSnapshot() returns (r: Result, snapshot: Snapshot)
      requires Valid()
      modifies `schedule, `yaml, `trace
      ensures Valid() && OnlyEnvironment()
      ensures r != RaisedLate
      ensures r.Done? && !trace.replayed ==> Load(FileOf(snapshot.digest)) == Some(snapshot.automations)
      ensures r.Done? && Quiet() ==>
                Load(yaml) == Some(snapshot.automations) && snapshot.digest == DigestOf(yaml)
      ensures r.Done? && trace.author.Found? ==> snapshot.digest == DigestOf(yaml)
      ensures r.Crashed? ==> Faulted()
      ensures r.Raised? && Quiet() ==> Faulted() || Load(yaml) == None
      ensures Quiet() && Load(yaml).Some? ==> Took(r.Done?, 3)
    {
      snapshot := Snapshot([], NoFile);
      SmoothInStages(schedule, 1, 2);
      SmoothInStages(Later(schedule, 1), 1, 1);
      for attempt := 0 to 3
        invariant Valid() && OnlyEnvironment()
        invariant attempt > 0 ==> !Quiet()
        invariant attempt == 0 ==> schedule == old(schedule)
      {
        var digest :- FileDigest();
        label Parsing:
        :- Await();
        var parsed := Load(yaml);
        if parsed == None {
          return Raised, snapshot;
        }
        var again :- FileDigest();
        if digest == again {
          return Done, Snapshot(parsed.value, again);
        }
      }
      return Raised, snapshot;
    }

    /** One replacement was recorded since, of bytes with this fingerprint. */
    ghost predicate Replaced(before: seq<Overwrite>, expected: Digest)
      reads this
    {
      && |trace.overwrites| == |before| + 1 && before <= trace.overwrites
      && DigestOf(trace.overwrites[|before|].victim) == expected
    }

    /** The atomic replacement of the bytes; nothing comes in between. */
    method Replace(automations: seq<Automation>, ghost forward: Option<seq<Automation>>)
      requires Valid() && journal.Some?
      requires forward.Some? ==>
                 && automations == journal.value.afterAutomations
                 && journal.value.before == DigestOf(yaml) && journal.value.state.Prepared?
                 && (!trace.replayed ==> Load(yaml) == forward)
      requires forward == None ==>
                 && journal.value.after == Some(DigestOf(yaml))
                 && (journal.value.state.YamlWritten? || journal.value.before != DigestOf(yaml))
      modifies `yaml, `trace
      ensures Valid() && yaml == Saved(automations)
      ensures Replaced(old(trace.overwrites), DigestOf(old(yaml)))
      ensures trace == old(trace).(past := old(trace.past) + {yaml}, author := HomeIntent, overwrites := trace.overwrites)
    {
      ghost var overwrite := match forward
                             case Some(basis) => Forward(yaml, basis)
                             case None => TakeBack(yaml, trace.author);
      yaml := Saved(automations);
      trace := trace.(past := trace.past + {yaml}, author := HomeIntent, overwrites := trace.overwrites + [overwrite]);
    }

    /**
     Compares the fingerprint and replaces the file in one step, then looks
     again at what the file holds.
     */
    method WriteContentIfUnchanged(automations: seq<Automation>, expected: Digest,
                                   ghost forward: Option<seq<Automation>>) returns (w: WriteResult)
      requires Valid()
      requires journal.Some?
      // a forward write carries out the open transaction ...
      requires forward.Some? ==>
                 && automations == journal.value.afterAutomations
                 && journal.value.before == expected && journal.value.state.Prepared?
                 && (!trace.replayed ==> Load(FileOf(expected)) == forward)
      // ... and any other write takes back what it had put into the file
      requires forward == None ==>
                 && journal.value.after == Some(expected)
                 && (journal.value.state.YamlWritten? || journal.value.before != expected)
      modifies `schedule, `yaml, `trace
      ensures Valid()
      ensures trace.past >= old(trace.past) && Pending() <= old(Pending())
      ensures !trace.replayed ==> !old(trace.replayed)
      ensures trace.overwrites == old(trace.overwrites) || Replaced(old(trace.overwrites), expected)
      ensures w.Written? ==> trace.overwrites != old(trace.overwrites) && Saved(automations) in trace.past
      ensures w.Written? && !trace.replayed ==> w.after == Sha(Dumped(automations))
      ensures w.Written? && !trace.replayed && yaml == Saved(automations) ==> trace.author == HomeIntent
      ensures w == Conflict(false) ==> trace.overwrites == old(trace.overwrites)
      ensures w.WriteFailed? || w.WriteCrashed? ==> Faulted()
      ensures Quiet() ==>
                && trace.replayed == old(trace.replayed)
                && (w.Written? ==> DigestOf(old(yaml)) == expected && yaml == Saved(automations) && w.after == DigestOf(yaml))
                && (w.Conflict? ==> !w.writeStarted && DigestOf(old(yaml)) != expected)
                && yaml == (if trace.overwrites == old(trace.overwrites) then old(yaml) else Saved(automations))
                && (trace.overwrites != old(trace.overwrites) ==> DigestOf(old(yaml)) == expected)
      ensures Quiet() && DigestOf(old(yaml)) == expected ==> Took(w.Written?, 2)
    {
      SmoothInStages(schedule, 1, 1);
      var r := Await();
      if r.Crashed? { return WriteCrashed; }
      if r.IsFailure() { return WriteFailed; }
      if DigestOf(yaml) != expected {
        return Conflict(false);
      }
      Replace(automations, forward);
      var digest;
      r, digest := FileDigest();
      if r.Crashed? { return WriteCrashed; }
      if r.IsFailure() { return WriteFailed; }
      if digest !in {Sha(Dumped(automations)), expected} {
        return Conflict(true);
      }
      return Written(digest);
    }

    // ----- the journal ----------------------------------------------------------

    method WriteJournal(t: Transaction) returns (r: Result)
      requires Valid()
      requires t.createdAt < clock
      requires !trace.replayed ==> t.after == Some(DigestOf(Saved(t.afterAutomations)))
      requires t.state.Prepared? && trace.author.Found? ==> t.before == DigestOf(yaml)
      requires t.state.YamlWritten? ==>
                 && journal.Some?
                 && (!trace.replayed ==> Saved(t.afterAutomations) in trace.past * trace.intended)
                 && (!trace.replayed && yaml == Saved(t.afterAutomations) ==> trace.author == HomeIntent)
      modifies `schedule, `yaml, `trace, `journal
      ensures Valid()
      ensures trace.past >= old(trace.past) && Pending() <= old(Pending())
      ensures !trace.replayed ==> !old(trace.replayed)
      ensures Quiet() ==> yaml == old(yaml)
      ensures r == Done ==> journal == Some(t)
      ensures r != Done ==> journal == old(journal) && Faulted()
      ensures r != RaisedLate
      ensures Took(r.Done?, 1)
    {
      r := Await();
      if r.IsFailure() {
        return;
      }
      journal := Some(t);
      var own := Saved(t.afterAutomations);
      if t.state.Prepared? {
        trace := trace.(intended := trace.intended + {own});
      }
      return Done;
    }

    method ClearJournal() returns (r: Result)
      requires Valid()
      modifies `schedule, `yaml, `trace, `journal
      ensures Valid() && OnlyEnvironment()
      ensures r == Done ==> journal == None
      ensures r != Done ==> journal == old(journal) && Faulted()
      ensures r != RaisedLate
      ensures Took(r.Done?, 1)
    {
      r := Await();
      if r.IsFailure() {
        return;
      }
      journal := None;
      return Done;
    }

    // ----- Home Assistant -------------------------------------------------------

    /** `automation.reload`: copies the parsed file into the live configuration, or fails without effect. */
    method Reload() returns (r: Result)
      requires Valid()
      modifies `schedule, `yaml, `trace, `live
      ensures Valid() && OnlyEnvironment()
      ensures r == Done ==> Load(yaml) == Some(live)
      ensures r != Done ==> live == old(live)
      ensures r != Done && (r.Raised? ==> Load(yaml).Some?) ==> Faulted()
      ensures r != RaisedLate
      ensures Load(yaml).Some? ==> Took(r.Done?, 1)
    {
      r := Await();
      if r.IsFailure() {
        return;
      }
      match Load(yaml)
      case Some(automations) => live := automations; return Done;
      case None => return Raised;
    }

    /** Home Assistant itself starts anew. */
    method Boot()
      requires Valid()
      modifies `live
      ensures Valid() && live == Booted(yaml)
    {
      live := Booted(yaml);
    }

    /** Assigning the HomeIntent category touches registries outside this model; it may only fail. */
    method AssignCategory() returns (r: Result)
      requires Valid()
      modifies `schedule, `yaml, `trace
      ensures Valid() && OnlyEnvironment()
      ensures r != Done ==> Faulted()
      ensures r != RaisedLate
    {
      r := Await();
    }

    /** A fresh creation stamp, later than every stamp handed out before. */
    method Tick() returns (createdAt: nat)
      requires Valid()
      modifies `clock
      ensures Valid() && createdAt == old(clock) < clock
    {
      createdAt := clock;
      clock := clock + 1;
    }
  }
}
