/**
 What the attention policy remembers: bounded maps in order of last use, oldest
 evicted first, and their round trip through a stored document.
 */
module AttentionStore {
  import opened Common

  const MAX_TRACKED_KEYS := 512
  const MAX_RECIPIENTS := 64
  const MAX_DELIVERIES_PER_RECIPIENT := 32
  const MAX_MUTES := 128

  /** An instant; timezone-aware stamps are compared as instants. */
  type Stamp = int

  // ----- ordered maps -----------------------------------------------------------------

  datatype Slot<V> = Slot(key: string, value: V)

  /** A map that remembers the order in which its keys were entered. */
  type Ordered<V> = seq<Slot<V>>

  ghost predicate Unique<V>(d: Ordered<V>) {
    forall i, j :: 0 <= i < j < |d| ==> d[i].key != d[j].key
  }

  function Lookup<V>(d: Ordered<V>, key: string): Option<V> {
    if d == [] then None
    else if d[|d| - 1].key == key then Some(d[|d| - 1].value)
    else Lookup(d[..|d| - 1], key)
  }

  function Without<V>(d: Ordered<V>, key: string): Ordered<V> {
    if d == [] then []
    else
      var rest, last := Without(d[..|d| - 1], key), d[|d| - 1];
      if last.key == key then rest else rest + [last]
  }

  lemma {:induction false} WithoutDrops<V>(d: Ordered<V>, key: string)
    ensures
      var r := Without(d, key);
      && |r| <= |d| && (forall i :: 0 <= i < |r| ==> r[i].key != key && r[i] in d)
      && (Unique(d) ==> Unique(r))
  {
    if d != [] {
      WithoutDrops(d[..|d| - 1], key);
    }
  }

  predicate Has<V>(d: Ordered<V>, key: string) {
    exists i :: 0 <= i < |d| && d[i].key == key
  }

  /** Assigning to a key: a known key keeps its place, a new one goes to the end. */
  function Assigned<V>(d: Ordered<V>, key: string, value: V): (r: Ordered<V>)
    ensures Unique(d) ==> Unique(r)
    ensures forall i :: 0 <= i < |r| ==> r[i] == Slot(key, value) || (i < |d| && r[i] == d[i])
  {
    if Has(d, key) then seq(|d|, i requires 0 <= i < |d| => if d[i].key == key then Slot(key, value) else d[i])
    else d + [Slot(key, value)]
  }

  /** Removed and entered again: the key becomes the newest. */
  function Renewed<V>(d: Ordered<V>, key: string, value: V): Ordered<V> {
    Without(d, key) + [Slot(key, value)]
  }

  lemma NewestIsUnique<V>(d: Ordered<V>, limit: nat)
    requires Unique(d)
    ensures Unique(KeepLast(d, limit)) && forall s :: s in KeepLast(d, limit) ==> s in d
  {
    KeepLastIsSuffix(d, limit);
  }

  /** Entering a key and evicting the oldest keeps keys unique and adds only the new entry. */
  lemma RenewedIsUnique<V>(d: Ordered<V>, key: string, value: V, limit: nat)
    requires Unique(d)
    ensures
      var r := KeepLast(Renewed(d, key, value), limit);
      Unique(r) && |r| <= limit && forall s :: s in r ==> s in d || s == Slot(key, value)
  {
    WithoutDrops(d, key);
    NewestIsUnique(Renewed(d, key, value), limit);
  }

  // ----- the remembered state -----------------------------------------------------------

  /** Per recipient the last deliveries; per key the last delivery; dismissals; confirmed mutes. */
  datatype Memory = Memory(
    deliveries: Ordered<seq<Stamp>>,
    keyLast: Ordered<Stamp>,
    dismissedUntil: Ordered<Stamp>,
    mutes: Ordered<Stamp>)

  const NOTHING := Memory([], [], [], [])

  /** Every dimension is bounded, and no key is entered twice. */
  ghost predicate Bounded(m: Memory) {
    && Unique(m.deliveries) && |m.deliveries| <= MAX_RECIPIENTS
    && (forall s :: s in m.deliveries ==> |s.value| <= MAX_DELIVERIES_PER_RECIPIENT)
    && Unique(m.keyLast) && |m.keyLast| <= MAX_TRACKED_KEYS
    && Unique(m.dismissedUntil) && |m.dismissedUntil| <= MAX_TRACKED_KEYS
    && Unique(m.mutes) && |m.mutes| <= MAX_MUTES
  }

  /** The remembered deliveries to one recipient, oldest first. */
  function History(m: Memory, recipient: string): seq<Stamp> {
    match Lookup(m.deliveries, recipient)
    case Some(history) => history
    case None => []
  }

  function MuteKey(userId: string, kind: string): string {
    userId + "\0" + kind
  }

  predicate IsMuted(m: Memory, userId: string, kind: string) {
    Lookup(m.mutes, MuteKey(userId, kind)).Some?
  }

  function Delivered(m: Memory, recipient: string, dedupeKey: string, now: Stamp): Memory {
    var history := KeepLast(History(m, recipient) + [now], MAX_DELIVERIES_PER_RECIPIENT);
    m.(deliveries := KeepLast(Renewed(m.deliveries, recipient, history), MAX_RECIPIENTS),
       keyLast := KeepLast(Renewed(m.keyLast, dedupeKey, now), MAX_TRACKED_KEYS))
  }

  function Dismissed(m: Memory, key: string, until: Stamp): Memory {
    m.(dismissedUntil := KeepLast(Renewed(m.dismissedUntil, key, until), MAX_TRACKED_KEYS))
  }

  function Muted(m: Memory, userId: string, kind: string, at: Stamp): Memory {
    m.(mutes := KeepLast(Renewed(m.mutes, MuteKey(userId, kind), at), MAX_MUTES))
  }

  function Unmuted(m: Memory, userId: string, kind: string): Memory {
    m.(mutes := Without(m.mutes, MuteKey(userId, kind)))
  }

  lemma DeliveredIsBounded(m: Memory, recipient: string, dedupeKey: string, now: Stamp)
    requires Bounded(m)
    ensures Bounded(Delivered(m, recipient, dedupeKey, now))
  {
    var history := KeepLast(History(m, recipient) + [now], MAX_DELIVERIES_PER_RECIPIENT);
    RenewedIsUnique(m.deliveries, recipient, history, MAX_RECIPIENTS);
    RenewedIsUnique(m.keyLast, dedupeKey, now, MAX_TRACKED_KEYS);
  }

  lemma DismissedIsBounded(m: Memory, key: string, until: Stamp)
    requires Bounded(m)
    ensures Bounded(Dismissed(m, key, until))
  {
    RenewedIsUnique(m.dismissedUntil, key, until, MAX_TRACKED_KEYS);
  }

  lemma MutedIsBounded(m: Memory, userId: string, kind: string, at: Stamp)
    requires Bounded(m)
    ensures Bounded(Muted(m, userId, kind, at)) && Bounded(Unmuted(m, userId, kind))
  {
    RenewedIsUnique(m.mutes, MuteKey(userId, kind), at, MAX_MUTES);
    WithoutDrops(m.mutes, MuteKey(userId, kind));
  }

  // ----- persistence ------------------------------------------------------------------------

  /** Any stored document, well-formed or not; a key need not be a string. */
  datatype Doc = Text(text: string) | List(items: seq<Doc>) | Mapping(fields: seq<Field>) | Other
  datatype Field = Field(key: Option<string>, value: Doc)

  /** Writing and reading a stamp; reading fails on anything without a time zone. */
  datatype Clock = Clock(iso: Stamp -> string, parse: string -> Option<Stamp>) {
    function Iso(t: Stamp): string {
      iso(t)
    }

    function Parse(text: string): Option<Stamp> {
      parse(text)
    }

    ghost predicate Faithful() {
      forall t :: Parse(Iso(t)) == Some(t)
    }

    function Aware(value: Doc): Option<Stamp> {
      if value.Text? then Parse(value.text) else None
    }
  }

  function FieldOf(fields: seq<Field>, name: string): Option<Doc> {
    if fields == [] then None
    else if fields[0].key == Some(name) then Some(fields[0].value)
    else FieldOf(fields[1..], name)
  }

  /** The readable stamps of a list. */
  function Readable(items: seq<Doc>, clock: Clock): seq<Stamp> {
    if items == [] then []
    else
      Readable(items[..|items| - 1], clock) +
      match clock.Aware(items[|items| - 1]) case Some(stamp) => [stamp] case None => []
  }

  /** The readable fields of a mapping from keys to stamps. */
  function StampsOf(fields: seq<Field>, clock: Clock): (d: Ordered<Stamp>)
    ensures Unique(d)
  {
    if fields == [] then []
    else
      var d, last := StampsOf(fields[..|fields| - 1], clock), fields[|fields| - 1];
      match (last.key, clock.Aware(last.value))
      case (Some(key), Some(stamp)) => Assigned(d, key, stamp)
      case _ => d
  }

  function DeliveriesOf(fields: seq<Field>, clock: Clock): (d: Ordered<seq<Stamp>>)
    ensures Unique(d)
    ensures forall s :: s in d ==> |s.value| <= MAX_DELIVERIES_PER_RECIPIENT
  {
    if fields == [] then []
    else
      var d, last := DeliveriesOf(fields[..|fields| - 1], clock), fields[|fields| - 1];
      match (last.key, last.value)
      case (Some(key), List(items)) => Assigned(d, key, KeepLast(Readable(items, clock), MAX_DELIVERIES_PER_RECIPIENT))
      case _ => d
  }

  function LoadedStamps(raw: Doc, name: string, limit: nat, clock: Clock): (d: Ordered<Stamp>)
    ensures Unique(d) && |d| <= limit
  {
    if !raw.Mapping? then []
    else
      match FieldOf(raw.fields, name)
      case Some(Mapping(fields)) =>
        NewestIsUnique(StampsOf(fields, clock), limit);
        KeepLast(StampsOf(fields, clock), limit)
      case _ => []
  }

  function LoadedDeliveries(raw: Doc, clock: Clock): (d: Ordered<seq<Stamp>>)
    ensures Unique(d) && |d| <= MAX_RECIPIENTS
    ensures forall s :: s in d ==> |s.value| <= MAX_DELIVERIES_PER_RECIPIENT
  {
    if !raw.Mapping? then []
    else
      match FieldOf(raw.fields, "deliveries")
      case Some(Mapping(fields)) =>
        NewestIsUnique(DeliveriesOf(fields, clock), MAX_RECIPIENTS);
        KeepLast(DeliveriesOf(fields, clock), MAX_RECIPIENTS)
      case _ => []
  }

  /** What a document is understood as: malformed parts are dropped, and nothing exceeds its bound. */
  function Loaded(raw: Doc, clock: Clock): (m: Memory)
    ensures Bounded(m)
  {
    Memory(LoadedDeliveries(raw, clock),
           LoadedStamps(raw, "key_last", MAX_TRACKED_KEYS, clock),
           LoadedStamps(raw, "dismissed_until", MAX_TRACKED_KEYS, clock),
           LoadedStamps(raw, "mutes", MAX_MUTES, clock))
  }

  function StampField(s: Slot<Stamp>, clock: Clock): Field {
    Field(Some(s.key), Text(clock.Iso(s.value)))
  }

  function Written(stamps: seq<Stamp>, clock: Clock): (items: seq<Doc>)
    ensures |items| == |stamps|
  {
    seq(|stamps|, i requires 0 <= i < |stamps| => Text(clock.Iso(stamps[i])))
  }

  function WrittenStamps(d: Ordered<Stamp>, clock: Clock): seq<Field> {
    seq(|d|, i requires 0 <= i < |d| => StampField(d[i], clock))
  }

  function WrittenDeliveries(d: Ordered<seq<Stamp>>, clock: Clock): seq<Field> {
    seq(|d|, i requires 0 <= i < |d| => Field(Some(d[i].key), List(Written(d[i].value, clock))))
  }

  function ToDocument(m: Memory, clock: Clock): Doc {
    Mapping([
      Field(Some("deliveries"), Mapping(WrittenDeliveries(m.deliveries, clock))),
      Field(Some("key_last"), Mapping(WrittenStamps(m.keyLast, clock))),
      Field(Some("dismissed_until"), Mapping(WrittenStamps(m.dismissedUntil, clock))),
      Field(Some("mutes"), Mapping(WrittenStamps(m.mutes, clock)))])
  }

  lemma {:induction false} ReadableWritten(stamps: seq<Stamp>, clock: Clock)
    requires clock.Faithful()
    ensures Readable(Written(stamps, clock), clock) == stamps
    decreases |stamps|
  {
    if stamps != [] {
      var n := |stamps| - 1;
      ReadableWritten(stamps[..n], clock);
      assert Written(stamps, clock)[..n] == Written(stamps[..n], clock);
      assert Written(stamps, clock)[n] == Text(clock.Iso(stamps[n]));
      assert Readable(Written(stamps, clock), clock) == Readable(Written(stamps, clock)[..n], clock) + [stamps[n]];
    }
  }

  lemma {:induction false} StampsWritten(d: Ordered<Stamp>, clock: Clock)
    requires clock.Faithful() && Unique(d)
    ensures StampsOf(WrittenStamps(d, clock), clock) == d
    decreases |d|
  {
    if d != [] {
      var n := |d| - 1;
      StampsWritten(d[..n], clock);
      assert WrittenStamps(d, clock)[..n] == WrittenStamps(d[..n], clock);
      assert WrittenStamps(d, clock)[n] == StampField(d[n], clock);
      assert d == d[..n] + [Slot(d[n].key, d[n].value)];
    }
  }

  lemma LastDeliveryWritten(d: Ordered<seq<Stamp>>, clock: Clock)
    requires d != []
    ensures
      var n := |d| - 1;
      && WrittenDeliveries(d, clock)[..n] == WrittenDeliveries(d[..n], clock)
      && WrittenDeliveries(d, clock)[n] == Field(Some(d[n].key), List(Written(d[n].value, clock)))
  {
  }

  /** Reading the deliveries of a recipient that is new puts them at the end. */
  lemma NextDeliveryRead(fields: seq<Field>, key: string, value: seq<Stamp>, clock: Clock)
    requires clock.Faithful() && fields != [] && fields[|fields| - 1] == Field(Some(key), List(Written(value, clock)))
    requires |value| <= MAX_DELIVERIES_PER_RECIPIENT && !Has(DeliveriesOf(fields[..|fields| - 1], clock), key)
    ensures DeliveriesOf(fields, clock) == DeliveriesOf(fields[..|fields| - 1], clock) + [Slot(key, value)]
  {
    ReadableWritten(value, clock);
  }

  lemma {:induction false} DeliveriesWritten(d: Ordered<seq<Stamp>>, clock: Clock)
    requires clock.Faithful() && Unique(d)
    requires forall s :: s in d ==> |s.value| <= MAX_DELIVERIES_PER_RECIPIENT
    ensures DeliveriesOf(WrittenDeliveries(d, clock), clock) == d
    decreases |d|
  {
    if d != [] {
      var n := |d| - 1;
      DeliveriesWritten(d[..n], clock);
      LastDeliveryWritten(d, clock);
      assert d[n] in d && !Has(d[..n], d[n].key);
      NextDeliveryRead(WrittenDeliveries(d, clock), d[n].key, d[n].value, clock);
      assert d == d[..n] + [Slot(d[n].key, d[n].value)];
    }
  }

  /** What four well-formed fields are understood as. */
  lemma LoadedFields(deliveries: seq<Field>, keys: seq<Field>, dismissals: seq<Field>, mutes: seq<Field>, clock: Clock)
    ensures
      Loaded(Mapping([Field(Some("deliveries"), Mapping(deliveries)), Field(Some("key_last"), Mapping(keys)),
                      Field(Some("dismissed_until"), Mapping(dismissals)), Field(Some("mutes"), Mapping(mutes))]), clock)
      == Memory(KeepLast(DeliveriesOf(deliveries, clock), MAX_RECIPIENTS), KeepLast(StampsOf(keys, clock), MAX_TRACKED_KEYS),
                KeepLast(StampsOf(dismissals, clock), MAX_TRACKED_KEYS), KeepLast(StampsOf(mutes, clock), MAX_MUTES))
  {
    FourFields(Mapping(deliveries), Mapping(keys), Mapping(dismissals), Mapping(mutes));
    var raw := Mapping([Field(Some("deliveries"), Mapping(deliveries)), Field(Some("key_last"), Mapping(keys)),
                        Field(Some("dismissed_until"), Mapping(dismissals)), Field(Some("mutes"), Mapping(mutes))]);
    FieldIsLoaded(raw, "key_last", keys, MAX_TRACKED_KEYS, clock);
    FieldIsLoaded(raw, "dismissed_until", dismissals, MAX_TRACKED_KEYS, clock);
    FieldIsLoaded(raw, "mutes", mutes, MAX_MUTES, clock);
  }

  lemma FieldIsLoaded(raw: Doc, name: string, fields: seq<Field>, limit: nat, clock: Clock)
    requires raw.Mapping? && FieldOf(raw.fields, name) == Some(Mapping(fields))
    ensures LoadedStamps(raw, name, limit, clock) == KeepLast(StampsOf(fields, clock), limit)
  {
  }

  /** Nothing is lost in storage, and the order of eviction is kept. */
  lemma {:induction false} PersistenceRoundTrip(m: Memory, clock: Clock)
    requires clock.Faithful() && Bounded(m)
    ensures Loaded(ToDocument(m, clock), clock) == m
  {
    LoadedFields(WrittenDeliveries(m.deliveries, clock), WrittenStamps(m.keyLast, clock), WrittenStamps(m.dismissedUntil, clock),
                 WrittenStamps(m.mutes, clock), clock);
    DeliveriesWritten(m.deliveries, clock);
    StampsWritten(m.keyLast, clock);
    StampsWritten(m.dismissedUntil, clock);
    StampsWritten(m.mutes, clock);
  }

  lemma FourFields(a: Doc, b: Doc, c: Doc, d: Doc)
    ensures
      var fields := [Field(Some("deliveries"), a), Field(Some("key_last"), b), Field(Some("dismissed_until"), c), Field(Some("mutes"), d)];
      && FieldOf(fields, "deliveries") == Some(a) && FieldOf(fields, "key_last") == Some(b)
      && FieldOf(fields, "dismissed_until") == Some(c) && FieldOf(fields, "mutes") == Some(d)
  {
    var key, dismissed, mutes := Field(Some("key_last"), b), Field(Some("dismissed_until"), c), Field(Some("mutes"), d);
    assert FieldOf([mutes], "mutes") == Some(d);
    assert [dismissed, mutes][1..] == [mutes];
    assert FieldOf([dismissed, mutes], "mutes") == Some(d);
    assert [key, dismissed, mutes][1..] == [dismissed, mutes];
    assert FieldOf([key, dismissed, mutes], "dismissed_until") == Some(c);
    assert FieldOf([key, dismissed, mutes], "mutes") == Some(d);
    assert [Field(Some("deliveries"), a), key, dismissed, mutes][1..] == [key, dismissed, mutes];
  }

  predicate Readably(field: Field, clock: Clock, key: string) {
    field.key == Some(key) && clock.Aware(field.value).Some?
  }

  /** The last field of this key that can be read. */
  predicate LastReadable(fields: seq<Field>, clock: Clock, key: string, i: nat) {
    i < |fields| && Readably(fields[i], clock, key) && forall j :: i < j < |fields| ==> !Readably(fields[j], clock, key)
  }

  /** Assigning to a known key changes the one entry that has it. */
  lemma AssignedLast<V>(d: Ordered<V>, key: string, value: V)
    requires Unique(d) && Has(d, key)
    ensures
      var n := |d| - 1;
      if d[n].key == key then Assigned(d, key, value) == d[..n] + [Slot(key, value)]
      else Has(d[..n], key) && Assigned(d, key, value) == Assigned(d[..n], key, value) + [d[n]]
  {
  }

  lemma {:induction false} LookupLast<V>(d: Ordered<V>, last: Slot<V>, key: string)
    ensures Lookup(d + [last], key) == if last.key == key then Some(last.value) else Lookup(d, key)
  {
    assert (d + [last])[..|d|] == d;
  }

  lemma {:induction false} LookupAssigned<V>(d: Ordered<V>, key: string, value: V, other: string)
    requires Unique(d)
    ensures Lookup(Assigned(d, key, value), other) == if other == key then Some(value) else Lookup(d, other)
    decreases |d|
  {
    if !Has(d, key) {
      LookupLast(d, Slot(key, value), other);
    } else {
      var n := |d| - 1;
      AssignedLast(d, key, value);
      LookupLast(d[..n], d[n], other);
      assert d[..n] + [d[n]] == d;
      if d[n].key == key {
        LookupLast(d[..n], Slot(key, value), other);
      } else {
        LookupLast(Assigned(d[..n], key, value), d[n], other);
        LookupAssigned(d[..n], key, value, other);
      }
    }
  }

  lemma StampsNext(fields: seq<Field>, last: Field, clock: Clock, key: string)
    ensures Lookup(StampsOf(fields + [last], clock), key) ==
            if Readably(last, clock, key) then clock.Aware(last.value) else Lookup(StampsOf(fields, clock), key)
  {
    assert (fields + [last])[..|fields|] == fields;
    var stamp := clock.Aware(last.value);
    if last.key.Some? && stamp.Some? {
      LookupAssigned(StampsOf(fields, clock), last.key.value, stamp.value, key);
    }
  }

  /** Of several readable fields the last counts. */
  lemma {:induction false} ReadableIsFound(fields: seq<Field>, clock: Clock, key: string, i: nat)
    requires LastReadable(fields, clock, key, i)
    ensures Lookup(StampsOf(fields, clock), key) == clock.Aware(fields[i].value)
    decreases |fields|
  {
    var n := |fields| - 1;
    StampsNext(fields[..n], fields[n], clock, key);
    assert fields[..n] + [fields[n]] == fields;
    if i < n {
      ReadableIsFound(fields[..n], clock, key, i);
    }
  }

  /** An unreadable field is skipped. */
  lemma {:induction false} UnreadableIsSkipped(fields: seq<Field>, clock: Clock, key: string)
    requires forall j :: 0 <= j < |fields| ==> !Readably(fields[j], clock, key)
    ensures Lookup(StampsOf(fields, clock), key) == None
    decreases |fields|
  {
    if fields != [] {
      var n := |fields| - 1;
      UnreadableIsSkipped(fields[..n], clock, key);
      StampsNext(fields[..n], fields[n], clock, key);
      assert fields[..n] + [fields[n]] == fields;
      assert !Readably(fields[n], clock, key);
    }
  }

  // ----- the store ----------------------------------------------------------------------------

  /** Drops the oldest entries until at most `limit` are left. */
  method EvictOldest<T>(entries: seq<T>, limit: nat) returns (kept: seq<T>)
    ensures kept == KeepLast(entries, limit)
  {
    kept := entries;
    ghost var dropped := 0;
    while |kept| > limit
      invariant 0 <= dropped <= |entries| && kept == entries[dropped..]
      invariant dropped > 0 ==> |kept| >= limit
    {
      kept := kept[1..];
      dropped := dropped + 1;
    }
    KeepLastIsSuffix(entries, limit);
  }

  class AttentionStateStore {
    var deliveries: Ordered<seq<Stamp>>
    var keyLast: Ordered<Stamp>
    var dismissedUntil: Ordered<Stamp>
    var mutes: Ordered<Stamp>

    function Contents(): Memory
      reads this
    {
      Memory(deliveries, keyLast, dismissedUntil, mutes)
    }

    ghost predicate Valid()
      reads this
    {
      Bounded(Contents())
    }

    constructor ()
      ensures Valid() && Contents() == NOTHING
    {
      deliveries, keyLast, dismissedUntil, mutes := [], [], [], [];
    }

    method RecordDelivery(recipient: string, dedupeKey: string, now: Stamp)
      requires Valid()
      modifies this
      ensures Valid() && Contents() == Delivered(old(Contents()), recipient, dedupeKey, now)
    {
      DeliveredIsBounded(Contents(), recipient, dedupeKey, now);
      var history := match Lookup(deliveries, recipient) case Some(known) => known case None => [];
      history := EvictOldest(history + [now], MAX_DELIVERIES_PER_RECIPIENT);
      deliveries := EvictOldest(Renewed(deliveries, recipient, history), MAX_RECIPIENTS);
      keyLast := EvictOldest(Renewed(keyLast, dedupeKey, now), MAX_TRACKED_KEYS);
    }

    method Dismiss(key: string, until: Stamp)
      requires Valid()
      modifies this
      ensures Valid() && Contents() == Dismissed(old(Contents()), key, until)
    {
      DismissedIsBounded(Contents(), key, until);
      dismissedUntil := EvictOldest(Renewed(dismissedUntil, key, until), MAX_TRACKED_KEYS);
    }

    method Mute(userId: string, kind: string, confirmedAt: Stamp)
      requires Valid()
      modifies this
      ensures Valid() && Contents() == Muted(old(Contents()), userId, kind, confirmedAt)
    {
      MutedIsBounded(Contents(), userId, kind, confirmedAt);
      var key := MuteKey(userId, kind);
      mutes := EvictOldest(Renewed(mutes, key, confirmedAt), MAX_MUTES);
    }

    method Unmute(userId: string, kind: string) returns (known: bool)
      requires Valid()
      modifies this
      ensures Valid() && Contents() == Unmuted(old(Contents()), userId, kind)
      ensures known == old(Lookup(mutes, MuteKey(userId, kind))).Some?
    {
      MutedIsBounded(Contents(), userId, kind, 0);
      var key := MuteKey(userId, kind);
      known := Lookup(mutes, key).Some?;
      mutes := Without(mutes, key);
    }

    /** Reads any document; what is malformed is skipped. */
    constructor FromDocument(raw: Doc, clock: Clock)
      ensures Valid() && Contents() == Loaded(raw, clock)
    {
      deliveries, keyLast, dismissedUntil, mutes := [], [], [], [];
      new;
      if raw.Mapping? {
        var loaded := ReadDeliveries(raw.fields, clock);
        keyLast := ReadStamps(raw.fields, "key_last", MAX_TRACKED_KEYS, clock);
        dismissedUntil := ReadStamps(raw.fields, "dismissed_until", MAX_TRACKED_KEYS, clock);
        mutes := ReadStamps(raw.fields, "mutes", MAX_MUTES, clock);
        deliveries := EvictOldest(loaded, MAX_RECIPIENTS);
      }
    }
  }

  method ReadDeliveries(document: seq<Field>, clock: Clock) returns (target: Ordered<seq<Stamp>>)
    ensures KeepLast(target, MAX_RECIPIENTS) == LoadedDeliveries(Mapping(document), clock)
  {
    target := [];
    var field := FieldOf(document, "deliveries");
    if field == None || !field.value.Mapping? {
      return;
    }
    var fields := field.value.fields;
    for i := 0 to |fields|
      invariant target == DeliveriesOf(fields[..i], clock)
    {
      assert fields[..i + 1][..i] == fields[..i];
      if fields[i].key.Some? && fields[i].value.List? {
        var stamps := Readable(fields[i].value.items, clock);
        stamps := EvictOldest(stamps, MAX_DELIVERIES_PER_RECIPIENT);
        target := Assigned(target, fields[i].key.value, stamps);
      }
    }
    assert fields[..|fields|] == fields;
  }

  method ReadStamps(document: seq<Field>, name: string, limit: nat, clock: Clock) returns (target: Ordered<Stamp>)
    ensures target == LoadedStamps(Mapping(document), name, limit, clock)
  {
    target := [];
    var field := FieldOf(document, name);
    if field == None || !field.value.Mapping? {
      return;
    }
    var fields := field.value.fields;
    for i := 0 to |fields|
      invariant target == StampsOf(fields[..i], clock)
    {
      assert fields[..i + 1][..i] == fields[..i];
      var stamp := clock.Aware(fields[i].value);
      if fields[i].key.Some? && stamp.Some? {
        target := Assigned(target, fields[i].key.value, stamp.value);
      }
    }
    assert fields[..|fields|] == fields;
    target := EvictOldest(target, limit);
  }
}
