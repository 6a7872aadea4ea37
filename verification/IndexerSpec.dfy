/**
 * The event indexer as a protocol: any number of ticks poll the same event
 * stream, apply it to the same tables and move one shared cursor, interleaved
 * at every statement, while ledgers close and old ones leave retention.
 */
module IndexerSpec {
  import opened Wrappers
  import opened MandateTypes

  type TickId = nat
  type MerchantId = nat

  /** A contract event as the RPC returns it; lifecycle is None for the kinds the indexer drops. */
  datatype RawEvent = RawEvent(ledger: nat, rpcEventId: nat, lifecycle: Option<Lifecycle>)

  datatype EventType = ActiveNotice | PausedNotice | ResumedNotice | RevokedNotice

  datatype IndexRow = IndexRow(
    merchantId: MerchantId,
    payerAddress: Address,
    merchantAddress: Address,
    assetAddress: Address,
    status: MandateStatus,
    contractStateVersion: nat,
    lastIndexedLedger: nat)

  datatype Delivery = Delivery(merchantId: MerchantId, eventId: nat, eventType: EventType, about: Lifecycle)

  /** The durable cursor: a ledger for gap detection, and the RPC's own position. */
  datatype Cursor = Cursor(lastLedger: nat, position: nat)

  /** One tick, with its local variables; `todo` holds the positions of the decoded events left. */
  datatype Tick =
    | Idle
    | FirstRun
    | Requesting(stored: Option<Cursor>, startLedger: nat)
    | Applying(stored: Option<Cursor>, from: nat, next: Cursor, todo: seq<nat>)
    | Resolved(stored: Option<Cursor>, from: nat, next: Cursor, todo: seq<nat>, merchantId: MerchantId)

  /** How far behind the tip a first run starts, and how many events a page may hold. */
  datatype Config = Config(initialLookbackLedgers: nat, pageLimit: nat)

  const DEFAULTS := Config(100, 100)

  /** The tables and the stream; `applied`, `lost` and `start` are the history the properties speak of. */
  datatype State = State(
    log: seq<RawEvent>,
    latest: nat,
    oldest: nat,
    merchants: map<Address, MerchantId>,
    cursor: Option<Cursor>,
    index: map<Hash, IndexRow>,
    deliveries: seq<Delivery>,
    ticks: map<TickId, Tick>,
    applied: seq<nat>,
    lost: set<nat>,
    start: Option<nat>,
    config: Config)

  datatype Act =
    | ReadCursor
    | ReadLatest
    | Fetch(to: nat, tolerant: bool)
    | Resolve
    | Commit(readAsset: Option<Address>)
    | Advance
    | Stop

  datatype Step =
    | By(t: TickId, act: Act)
    | CloseLedger(events: seq<RawEvent>)
    | Prune(oldest: nat)

  function StatusFor(kind: LifecycleKind): MandateStatus
  {
    match kind
    case CreatedEvent => Active
    case PausedEvent => Paused
    case ResumedEvent => Active
    case RevokedEvent => Revoked
    case CompletedEvent => Completed
  }

  /** The completion has no notice of its own: the charge pipeline sends that one. */
  function NoticeFor(kind: LifecycleKind): Option<EventType>
  {
    match kind
    case CreatedEvent => Some(ActiveNotice)
    case PausedEvent => Some(PausedNotice)
    case ResumedEvent => Some(ResumedNotice)
    case RevokedEvent => Some(RevokedNotice)
    case CompletedEvent => None
  }

  // ---- the stream ----

  /** Ledgers in order, event ids distinct, and a mandate's merchant never changes. */
  predicate LogOk(log: seq<RawEvent>, latest: nat)
  {
    && (forall i, j :: 0 <= i < j < |log| ==> log[i].ledger <= log[j].ledger)
    && (forall i, j :: 0 <= i < j < |log| ==> log[i].rpcEventId != log[j].rpcEventId)
    && (forall i :: 0 <= i < |log| ==> log[i].ledger <= latest)
    && (forall i, j | 0 <= i < |log| && 0 <= j < |log| && log[i].lifecycle.Some? && log[j].lifecycle.Some? ::
          log[i].lifecycle.value.mandateId == log[j].lifecycle.value.mandateId ==>
            log[i].lifecycle.value.merchant == log[j].lifecycle.value.merchant)
  }

  /** The first position at or after a ledger. */
  function FirstAt(log: seq<RawEvent>, ledger: nat): (p: nat)
    ensures p <= |log|
    ensures forall i :: 0 <= i < p ==> log[i].ledger < ledger
    ensures p < |log| ==> log[p].ledger >= ledger
  {
    if log == [] then 0
    else
      var p := FirstAt(log[..|log| - 1], ledger);
      if p == |log| - 1 && log[|log| - 1].ledger < ledger then |log| else p
  }

  /** The positions of the decoded events of a page. */
  function Decoded(log: seq<RawEvent>, from: nat, to: nat): seq<nat>
    requires from <= to <= |log|
  {
    if from == to then []
    else Decoded(log, from, to - 1) + if log[to - 1].lifecycle.Some? then [to - 1] else []
  }

  /** The highest ledger among all events of a page, decoded or not. */
  function MaxLedger(log: seq<RawEvent>, from: nat, to: nat): Option<nat>
    requires from <= to <= |log|
  {
    if from == to then None
    else
      var before := MaxLedger(log, from, to - 1);
      if before.None? || log[to - 1].ledger > before.value then Some(log[to - 1].ledger) else before
  }

  function Range(a: nat, b: nat): (r: set<nat>)
    ensures forall p :: p in r <==> a <= p < b
    decreases b
  {
    if b <= a then {} else Range(a, b - 1) + {b - 1}
  }

  function Max(a: int, b: int): int { if a < b then b else a }

  /** Where the RPC begins a page: the position asked for, or the first event it still has. */
  function PageStart(s: State, stored: Option<Cursor>, startLedger: nat): nat
  {
    Max(Asked(s, stored, startLedger), FirstAt(s.log, s.oldest))
  }

  function Asked(s: State, stored: Option<Cursor>, startLedger: nat): nat
  {
    if stored.Some? then stored.value.position else FirstAt(s.log, startLedger)
  }

  /** The indexer's own gap test, on the ledger numbers. */
  predicate GapDetected(s: State, stored: Option<Cursor>)
  {
    stored.Some? && s.oldest > stored.value.lastLedger + 1
  }

  function NextCursor(s: State, stored: Option<Cursor>, startLedger: nat, from: nat, to: nat): Cursor
    requires from <= to <= |s.log|
  {
    var max := MaxLedger(s.log, from, to);
    Cursor(if max.Some? then max.value else if stored.Some? then stored.value.lastLedger else startLedger, to)
  }

  // ---- the tables ----

  /** The one upsert statement: insert, or update a row no newer than the event. */
  function Upsert(row: Option<IndexRow>, event: Lifecycle, ledger: nat, merchantId: MerchantId, asset: Address): IndexRow
  {
    if row.None? then IndexRow(merchantId, event.payer, event.merchant, asset, StatusFor(event.kind), 1, ledger)
    else if row.value.lastIndexedLedger <= ledger then
      IndexRow(merchantId, event.payer, event.merchant, asset, StatusFor(event.kind), row.value.contractStateVersion + 1, ledger)
    else row.value
  }

  function RowOf(index: map<Hash, IndexRow>, id: Hash): Option<IndexRow>
  {
    if id in index then Some(index[id]) else None
  }

  /** The asset to store: what the row has, what a creation carries, or what a fresh read says. */
  function AssetFor(row: Option<IndexRow>, event: Lifecycle, readAsset: Option<Address>): Option<Address>
  {
    if row.Some? then Some(row.value.assetAddress)
    else if event.kind == CreatedEvent then Some(event.asset)
    else readAsset
  }

  function ResolveMerchant(s: State, event: Lifecycle): Option<MerchantId>
  {
    if event.mandateId in s.index then Some(s.index[event.mandateId].merchantId)
    else if event.merchant in s.merchants then Some(s.merchants[event.merchant])
    else None
  }

  predicate HasDelivery(deliveries: seq<Delivery>, eventId: nat)
  {
    exists i :: 0 <= i < |deliveries| && deliveries[i].eventId == eventId
  }

  /** Insert, skipping a duplicate event id. */
  function Enqueue(deliveries: seq<Delivery>, d: Delivery): seq<Delivery>
  {
    if HasDelivery(deliveries, d.eventId) then deliveries else deliveries + [d]
  }

  /** The transaction for one event: the row, and the notice if its kind has one. */
  function ApplyEvent(s: State, p: nat, merchantId: MerchantId, asset: Address): State
    requires p < |s.log| && s.log[p].lifecycle.Some?
  {
    var event := s.log[p].lifecycle.value;
    var row := Upsert(RowOf(s.index, event.mandateId), event, s.log[p].ledger, merchantId, asset);
    var notice := NoticeFor(event.kind);
    s.(index := s.index[event.mandateId := row],
       deliveries := if notice.Some? then Enqueue(s.deliveries, Delivery(merchantId, s.log[p].rpcEventId, notice.value, event)) else s.deliveries,
       applied := s.applied + [p])
  }

  // ---- steps ----

  function At(s: State, t: TickId): Tick
  {
    if t in s.ticks then s.ticks[t] else Idle
  }

  function Goto(s: State, t: TickId, k: Tick): State
  {
    s.(ticks := s.ticks[t := k])
  }

  function DoFetch(s: State, t: TickId, stored: Option<Cursor>, startLedger: nat, to: nat, tolerant: bool): State
  {
    var from := PageStart(s, stored, startLedger);
    if (!tolerant && Asked(s, stored, startLedger) < from) || GapDetected(s, stored) then Goto(s, t, Idle)
    else if !(from <= to <= |s.log| && to - from <= s.config.pageLimit) then s
    else Goto(s, t, Applying(stored, from, NextCursor(s, stored, startLedger, from, to), Decoded(s.log, from, to)))
  }

  predicate HasEvent(s: State, todo: seq<nat>)
  {
    todo != [] && todo[0] < |s.log| && s.log[todo[0]].lifecycle.Some?
  }

  /** An event nobody here owns is logged and passed over. */
  function DoResolve(s: State, t: TickId, k: Tick): State
    requires k.Applying? && HasEvent(s, k.todo)
  {
    var merchant := ResolveMerchant(s, s.log[k.todo[0]].lifecycle.value);
    if merchant.Some? then Goto(s, t, Resolved(k.stored, k.from, k.next, k.todo, merchant.value))
    else Goto(s, t, Applying(k.stored, k.from, k.next, k.todo[1..])).(applied := s.applied + [k.todo[0]])
  }

  function DoCommit(s: State, t: TickId, k: Tick, readAsset: Option<Address>): State
    requires k.Resolved? && HasEvent(s, k.todo)
  {
    var event := s.log[k.todo[0]].lifecycle.value;
    var asset := AssetFor(RowOf(s.index, event.mandateId), event, readAsset);
    if asset.None? then Goto(s, t, Idle)
    else Goto(ApplyEvent(s, k.todo[0], k.merchantId, asset.value), t, Applying(k.stored, k.from, k.next, k.todo[1..]))
  }

  /** Create the row, or compare and swap it; a lost race changes nothing. */
  function DoAdvance(s: State, t: TickId, k: Tick): State
    requires k.Applying?
  {
    if s.cursor != k.stored then Goto(s, t, Idle)
    else
      Goto(s, t, Idle).(
        cursor := Some(k.next),
        start := if s.start.None? then Some(k.from) else s.start,
        lost := if k.stored.Some? then s.lost + Range(k.stored.value.position, k.from) else s.lost)
  }

  function DoAct(s: State, t: TickId, act: Act): State
  {
    var k := At(s, t);
    match act
    case ReadCursor => if k.Idle? then Goto(s, t, if s.cursor.Some? then Requesting(s.cursor, 0) else FirstRun) else s
    case ReadLatest => if k.FirstRun? then Goto(s, t, Requesting(None, Max(1, s.latest - s.config.initialLookbackLedgers))) else s
    case Fetch(to, tolerant) => if k.Requesting? then DoFetch(s, t, k.stored, k.startLedger, to, tolerant) else s
    case Resolve => if k.Applying? && HasEvent(s, k.todo) then DoResolve(s, t, k) else s
    case Commit(readAsset) => if k.Resolved? && HasEvent(s, k.todo) then DoCommit(s, t, k, readAsset) else s
    case Advance => if k.Applying? && k.todo == [] then DoAdvance(s, t, k) else s
    case Stop => Goto(s, t, Idle)
  }

  function Next(s: State, step: Step): State
  {
    match step
    case By(t, act) => DoAct(s, t, act)
    case CloseLedger(events) =>
      if (forall i :: 0 <= i < |events| ==> events[i].ledger == s.latest + 1) && LogOk(s.log + events, s.latest + 1)
      then s.(log := s.log + events, latest := s.latest + 1)
      else s
    case Prune(oldest) => if s.oldest <= oldest <= s.latest then s.(oldest := oldest) else s
  }

  function Run(s: State, steps: seq<Step>): State
  {
    if steps == [] then s else Next(Run(s, steps[..|steps| - 1]), steps[|steps| - 1])
  }

  /** A deployment with this merchant table that has not polled yet, at any ledger, with any stream behind it. */
  ghost predicate Fresh(s: State)
  {
    && LogOk(s.log, s.latest) && s.oldest <= s.latest
    && s.cursor == None && s.index == map[] && s.deliveries == [] && s.ticks == map[]
    && s.applied == [] && s.lost == {} && s.start == None
  }
}
