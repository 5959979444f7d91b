/** One submission claim or venue scope event: what a reader accepts of it, and when a written scope reads back. */
module ScopeEvents {
  import opened Wrappers
  import opened Text
  import opened Orders

  // The strings of the wire vocabulary, kept apart from free text.
  datatype Word = BuyWord | SellWord | MarketWord | LimitWord | TrailingStopWord | UsEquity | Qty | Day | Simple
      | BuyToOpen | SellToClose | Unknown

  // A payload value; Missing is an absent key.
  datatype Json = Missing | Null | Bool(b: bool) | Int(n: int) | Num(r: real) | Text(s: string) | Term(w: Word)
      | NotFinite | Composite

  datatype Kind = SubmitPending | VenueScope | OtherKind

  datatype Source = Engine | Reconciliation | OtherSource

  datatype Authority = Local | Synthetic | OtherAuthority

  // The number at the end of a claim key: as the writer renders it, another spelling, or no number.
  datatype Tail = Canonical(n: nat) | Spelled(i: int) | NotANumber

  datatype Key = NoKey | ClaimKey(orderId: string, tail: Tail) | ScopeKey(orderId: string, occurrence: nat)
      | BackfillKey(orderId: string) | OtherKey(text: string)

  datatype Event = Event(kind: Kind, source: Source, authority: Authority, key: Key, orderId: Option<string>,
                         symbol: Option<string>, side: Option<Side>, quantity: Option<int>, price: Option<real>,
                         session: Option<string>, payload: Payload)

  // The payload entries that are read; others are ignored.
  datatype Payload = Payload(claimOccurrence: Json, clientOrderId: Json, symbol: Json, side: Json, quantity: Json,
                             orderType: Json, limitPrice: Json, extendedHours: Json, assetClass: Json,
                                 quantityMode: Json,
                             timeInForce: Json, orderClass: Json, predecessor: Json)

  datatype OrderType = Market | Limit | TrailingStop

  datatype Scope = Scope(clientOrderId: string, symbol: string, side: Side, quantity: int, orderType: OrderType,
                         limitPrice: Option<real>, extendedHours: Option<bool>, assetClass: Word, quantityMode: Word,
                         timeInForce: Word, orderClass: Word, predecessor: Option<string>)

  // Protective market sells may be rendered as live-priced limits.
  predicate DynamicType(side: Side, orderType: OrderType) { side == Sell && orderType == Market }

  predicate Nil(j: Json) { j == Missing || j == Null }

  // ---- claims ----

  function ClaimOccurrence(e: Event, fallback: nat): Option<nat> {
    var raw := e.payload.claimOccurrence;
    if raw.Int? && raw.n >= 0 then Some(raw.n)
    else if !Nil(raw) then None
    else match e.key
      case ClaimKey(_, Canonical(n)) => Some(n)
      case ClaimKey(_, Spelled(i)) => if i >= 0 then Some(i) else None
      case ClaimKey(_, NotANumber) => None
      case _ => Some(fallback)
  }

  predicate LegacyBackfill(e: Event, id: string) {
    e.source == Reconciliation && e.authority == Synthetic && e.key == BackfillKey(id) &&
        e.payload.claimOccurrence == Missing
  }

  // The claim event is well formed as the order's claim number `expected`.
  predicate ClaimOk(e: Event, expected: nat, id: string) {
    && ClaimOccurrence(e, expected) == Some(expected)
    && ((expected == 0 && LegacyBackfill(e, id))
        || (e.source == Engine && e.authority == Local && e.key == ClaimKey(id, Canonical(expected))))
    && e.symbol.Some? && !Blank(e.symbol.value) && e.side.Some? && e.quantity == None && e.price == None
  }

  // ---- decoding one scope event ----

  function Sided(j: Json): Option<Side> {
    if j == Term(BuyWord) then Some(Buy) else if j == Term(SellWord) then Some(Sell) else None
  }

  function Typed(j: Json): Option<OrderType> {
    if j == Term(MarketWord) then Some(Market) else if j == Term(LimitWord) then Some(Limit)
    else if j == Term(TrailingStopWord) then Some(TrailingStop) else None
  }

  // A JSON value as the number it compares equal to; booleans compare as 0 and 1.
  function Numeric(j: Json): Option<real> {
    match j
    case Int(n) => Some(n as real)
    case Num(r) => Some(r)
    case Bool(b) => Some(if b then 1.0 else 0.0)
    case _ => None
  }

  function ExtendedHours(j: Json): Option<bool> { if j.Bool? then Some(j.b) else None }

  predicate NonBlankText(j: Json) { j.Text? && !Blank(j.s) }

  predicate PriceFits(orderType: OrderType, limit: Json) {
    match orderType
    case Market => Nil(limit)
    case Limit => (limit.Int? && limit.n > 0) || (limit.Num? && limit.r > 0.0)
    case TrailingStop => Nil(limit) || Numeric(limit).Some?
  }

  predicate HoursFit(orderType: OrderType, hours: Json, predecessor: Json) {
    && (hours.Bool? || (hours == Null && !Nil(predecessor)))
    && (orderType == Market ==> hours == Bool(false))
  }

  // The event is one the scope writer keys and signs.
  predicate SignedScope(e: Event) {
    && e.kind == VenueScope && e.source == Engine && e.authority == Local && e.orderId.Some?
    && e.payload.claimOccurrence.Int? && e.payload.claimOccurrence.n >= 0
    && e.key == ScopeKey(e.orderId.value, e.payload.claimOccurrence.n)
  }

  predicate PayloadOk(p: Payload) {
    && NonBlankText(p.clientOrderId) && NonBlankText(p.symbol) && Sided(p.side).Some? && Typed(p.orderType).Some?
    && p.quantity.Int? && p.quantity.n > 0
    && p.assetClass == Term(UsEquity) && p.quantityMode == Term(Qty)
    && p.timeInForce == Term(Day) && p.orderClass == Term(Simple)
    && (Nil(p.predecessor) || NonBlankText(p.predecessor))
    && PriceFits(Typed(p.orderType).value, p.limitPrice)
    && HoursFit(Typed(p.orderType).value, p.extendedHours, p.predecessor)
  }

  // The indexed columns repeat the payload.
  predicate ColumnsAgree(e: Event)
    requires PayloadOk(e.payload)
  {
    var p := e.payload;
    && e.orderId == Some(Strip(p.clientOrderId.s)) && e.symbol == Some(Upper(Strip(p.symbol.s)))
    && e.side == Sided(p.side) && e.quantity == Some(p.quantity.n) && e.price == Numeric(p.limitPrice)
  }

  predicate ScopeEventOk(e: Event) { SignedScope(e) && PayloadOk(e.payload) && ColumnsAgree(e) }

  function Decode(e: Event): Option<Scope> {
    if !ScopeEventOk(e) then None
    else
      var p := e.payload;
      var predecessor := p.predecessor;
      Some(Scope(Strip(p.clientOrderId.s), Upper(Strip(p.symbol.s)), Sided(p.side).value, p.quantity.n,
                 Typed(p.orderType).value, Numeric(p.limitPrice), ExtendedHours(p.extendedHours),
                 UsEquity, Qty, Day, Simple, if predecessor.Text? then Some(Strip(predecessor.s)) else None))
  }

  // What the map needs of one scope event: the occurrence it names, the request if readable, and its claim's columns.
  datatype Recorded = Recorded(occurrence: nat, scope: Option<Scope>, symbol: Option<string>, side: Option<Side>,
                               session: Option<string>)

  function Read(e: Event): Recorded {
    Recorded(if e.key.ScopeKey? then e.key.occurrence else 0, Decode(e), e.symbol, e.side, e.session)
  }

  // An event beside its reading as a scope.
  datatype Entry = Entry(event: Event, read: Recorded)

  function View(e: Event): Entry { Entry(e, Read(e)) }

  // A readable scope event is keyed by its own order and occurrence.
  lemma ReadableIsKeyed(e: Event, id: string)
    requires e.orderId == Some(id) && Read(e).scope.Some?
    ensures e.key == ScopeKey(id, Read(e).occurrence)
  {
  }

  // ---- what the writer stores ----

  function SideText(s: Side): Json { Term(if s == Buy then BuyWord else SellWord) }

  function TypeWord(t: OrderType): Word {
    match t case Market => MarketWord case Limit => LimitWord case TrailingStop => TrailingStopWord
  }

  function TypeText(t: OrderType): Json { Term(TypeWord(t)) }

  function NumberOrNull(r: Option<real>): Json { if r.Some? then Num(r.value) else Null }

  function BoolOrNull(b: Option<bool>): Json { if b.Some? then Bool(b.value) else Null }

  function TextOrNull(s: Option<string>): Json { if s.Some? then Text(s.value) else Null }

  function Encode(id: string, session: Option<string>, occurrence: nat, scope: Scope): Event {
    Event(VenueScope, Engine, Local, ScopeKey(id, occurrence), Some(id), Some(scope.symbol), Some(scope.side),
          Some(scope.quantity), scope.limitPrice, session,
          Payload(Int(occurrence), Text(scope.clientOrderId), Text(scope.symbol), SideText(scope.side),
                  Int(scope.quantity),
                  TypeText(scope.orderType), NumberOrNull(scope.limitPrice),
                  BoolOrNull(scope.extendedHours),
                  Term(scope.assetClass), Term(scope.quantityMode), Term(scope.timeInForce), Term(scope.orderClass),
                  TextOrNull(scope.predecessor)))
  }

  /** What a caller must hold for the written event to read back as exactly the request sent: ids without
      surrounding whitespace, an upper-case symbol, a positive quantity, and a type that fits its price and hours. */
  predicate Sendable(id: string, scope: Scope) {
    && id == scope.clientOrderId && id != [] && Normal(id)
    && scope.symbol != [] && Normal(scope.symbol) && Upper(scope.symbol) == scope.symbol
    && WireOk(scope) && (scope.predecessor.Some? ==> scope.predecessor.value != [] && Normal(scope.predecessor.value))
  }

  lemma UpperKeepsSpaces(s: string)
    ensures Normal(Upper(s)) <==> Normal(s)
  {
  }

  lemma LabelsReadBack(side: Side, orderType: OrderType)
    ensures Sided(SideText(side)) == Some(side) && Typed(TypeText(orderType)) == Some(orderType)
  {
  }

  // The wire part of a request is one the reader takes.
  predicate WireOk(scope: Scope) {
    && scope.quantity > 0
    && scope.assetClass == UsEquity && scope.quantityMode == Qty && scope.timeInForce == Day &&
        scope.orderClass == Simple
    && (scope.orderType == Market ==> scope.limitPrice == None && scope.extendedHours == Some(false))
    && (scope.orderType == Limit ==> scope.limitPrice.Some? && scope.limitPrice.value > 0.0)
    && (scope.extendedHours == None ==> scope.predecessor.Some?)
  }

  // The writer's event is readable under a slightly wider condition than Sendable, since reading strips its ids.
  predicate Readable(id: string, scope: Scope) {
    && id == Strip(scope.clientOrderId) && id != []
    && !Blank(scope.symbol) && Upper(Strip(scope.symbol)) == scope.symbol
    && WireOk(scope) && (scope.predecessor.Some? ==> !Blank(scope.predecessor.value))
  }

  function Stripped(scope: Scope): Scope {
    scope.(clientOrderId := Strip(scope.clientOrderId),
           predecessor := if scope.predecessor.Some? then Some(Strip(scope.predecessor.value)) else None)
  }

  lemma WireRendered(scope: Scope)
    ensures var limit, hours := NumberOrNull(scope.limitPrice), BoolOrNull(scope.extendedHours);
            (PriceFits(scope.orderType, limit) && HoursFit(scope.orderType, hours, TextOrNull(scope.predecessor)))
            <==> (&& (scope.orderType == Market ==> scope.limitPrice == None && scope.extendedHours == Some(false))
                  && (scope.orderType == Limit ==> scope.limitPrice.Some? && scope.limitPrice.value > 0.0)
                  && (scope.extendedHours == None ==> scope.predecessor.Some?))
  {
  }

  lemma EncodedPayload(id: string, session: Option<string>, occurrence: nat, scope: Scope)
    ensures PayloadOk(Encode(id, session, occurrence, scope).payload) <==>
            !Blank(scope.clientOrderId) && !Blank(scope.symbol) && WireOk(scope) &&
                (scope.predecessor.Some? ==> !Blank(scope.predecessor.value))
  {
    LabelsReadBack(scope.side, scope.orderType);
    WireRendered(scope);
    var p := Encode(id, session, occurrence, scope).payload;
    assert (Nil(p.predecessor) || NonBlankText(p.predecessor)) <==>
           (scope.predecessor.Some? ==> !Blank(scope.predecessor.value));
  }

  lemma EncodedColumns(id: string, session: Option<string>, occurrence: nat, scope: Scope)
    requires PayloadOk(Encode(id, session, occurrence, scope).payload)
    ensures ColumnsAgree(Encode(id, session, occurrence, scope)) <==>
            id == Strip(scope.clientOrderId) && scope.symbol == Upper(Strip(scope.symbol))
  {
    LabelsReadBack(scope.side, scope.orderType);
  }

  lemma EncodedReadable(id: string, session: Option<string>, occurrence: nat, scope: Scope)
    ensures ScopeEventOk(Encode(id, session, occurrence, scope)) <==> Readable(id, scope)
  {
    var e := Encode(id, session, occurrence, scope);
    assert SignedScope(e);
    EncodedPayload(id, session, occurrence, scope);
    if PayloadOk(e.payload) { EncodedColumns(id, session, occurrence, scope); }
    assert id == Strip(scope.clientOrderId) ==> (Blank(scope.clientOrderId) <==> id == []);
  }

  lemma Reads(id: string, session: Option<string>, occurrence: nat, scope: Scope)
    ensures Decode(Encode(id, session, occurrence, scope))
              == if Readable(id, scope) then Some(Stripped(scope)) else None
  {
    EncodedReadable(id, session, occurrence, scope);
    LabelsReadBack(scope.side, scope.orderType);
  }

  /** The recorded scope event decodes back to exactly the scope written, precisely when it was sendable. */
  lemma RoundTrip(id: string, session: Option<string>, occurrence: nat, scope: Scope)
    ensures Decode(Encode(id, session, occurrence, scope)) == Some(scope) <==> Sendable(id, scope)
  {
    Reads(id, session, occurrence, scope);
    NormalIsFixed(scope.clientOrderId);
    NormalIsFixed(scope.symbol);
    UpperKeepsSpaces(Strip(scope.symbol));
    if scope.predecessor.Some? { NormalIsFixed(scope.predecessor.value); }
  }

  // ---- nothing else is read as a scope or a claim ----

  lemma {:induction false} UpperIsFixed(s: string)
    ensures Upper(Upper(s)) == Upper(s)
  {
  }

  // The two events agree in everything the store indexes.
  predicate SameColumns(a: Event, b: Event) {
    && a.kind == b.kind && a.source == b.source && a.authority == b.authority && a.key == b.key &&
        a.orderId == b.orderId
    && a.symbol == b.symbol && a.side == b.side && a.quantity == b.quantity && a.price == b.price &&
        a.session == b.session
  }

  // The payloads say the same once ids are stripped, the symbol is upper-cased, and numbers are compared by value.
  predicate SamePayload(p: Payload, q: Payload) {
    && p.claimOccurrence == q.claimOccurrence && p.quantity == q.quantity && p.side == q.side &&
        p.orderType == q.orderType
    && p.assetClass == q.assetClass && p.quantityMode == q.quantityMode && p.timeInForce == q.timeInForce
    && p.orderClass == q.orderClass && p.extendedHours == q.extendedHours &&
        Numeric(p.limitPrice) == Numeric(q.limitPrice)
    && p.clientOrderId.Text? && q.clientOrderId == Text(Strip(p.clientOrderId.s))
    && p.symbol.Text? && q.symbol == Text(Upper(Strip(p.symbol.s)))
    && (if p.predecessor.Text? then q.predecessor == Text(Strip(p.predecessor.s))
        else Nil(p.predecessor) && Nil(q.predecessor))
  }

  // A stripped text is fixed, and so is the stripped and upper-cased symbol.
  lemma StrippedIsFixed(x: string)
    requires !Blank(x)
    ensures Strip(x) != [] && Normal(Strip(x))
    ensures var y := Upper(Strip(x)); y != [] && Normal(y) && Upper(y) == y
  {
    NormalIsFixed(x);
    UpperKeepsSpaces(Strip(x));
    UpperIsFixed(Strip(x));
  }

  lemma DecodedWire(p: Payload, scope: Scope)
    requires PayloadOk(p) && scope.orderType == Typed(p.orderType).value && scope.limitPrice == Numeric(p.limitPrice)
    requires scope.quantity == p.quantity.n && scope.extendedHours == ExtendedHours(p.extendedHours)
    requires scope.assetClass == UsEquity && scope.quantityMode == Qty && scope.timeInForce == Day
    requires scope.orderClass == Simple && (scope.predecessor.Some? <==> p.predecessor.Text?)
    ensures WireOk(scope)
  {
  }

  lemma DecodedIsSendable(e: Event, scope: Scope)
    requires Decode(e) == Some(scope)
    ensures Sendable(scope.clientOrderId, scope)
  {
    var p := e.payload;
    StrippedIsFixed(p.clientOrderId.s);
    StrippedIsFixed(p.symbol.s);
    if p.predecessor.Text? { StrippedIsFixed(p.predecessor.s); }
    DecodedWire(p, scope);
  }

  lemma DecodedPayload(e: Event, scope: Scope, occurrence: nat)
    requires Decode(e) == Some(scope) && e.payload.claimOccurrence == Int(occurrence)
    ensures SamePayload(e.payload, Encode(scope.clientOrderId, e.session, occurrence, scope).payload)
  {
    DecodedLabels(e.payload);
  }

  /** Whatever decodes is what the writer would have written: the decoded request is sendable, and encoding it again
      gives the event's own columns and payload, up to whitespace, case and how numbers are spelled. */
  lemma DecodedIsWritten(e: Event, scope: Scope)
    requires Decode(e) == Some(scope)
    ensures e.orderId == Some(scope.clientOrderId) && e.key.ScopeKey? && Sendable(scope.clientOrderId, scope)
    ensures var again := Encode(scope.clientOrderId, e.session, e.key.occurrence, scope);
            SameColumns(e, again) && SamePayload(e.payload, again.payload)
  {
    assert SignedScope(e) && ColumnsAgree(e);
    DecodedIsSendable(e, scope);
    DecodedPayload(e, scope, e.key.occurrence);
  }

  lemma DecodedLabels(p: Payload)
    requires Sided(p.side).Some? && Typed(p.orderType).Some?
    ensures SideText(Sided(p.side).value) == p.side && TypeText(Typed(p.orderType).value) == p.orderType
  {
  }

  const NO_PAYLOAD := Payload(Missing, Missing, Missing, Missing, Missing, Missing, Missing, Missing, Missing, Missing,
                              Missing, Missing, Missing)

  // The claim that the store records when an order enters SUBMITTING for the n-th time.
  function StoreClaim(id: string, symbol: string, side: Side, session: Option<string>, n: nat): Event {
    Event(SubmitPending, Engine, Local, ClaimKey(id, Canonical(n)), Some(id), Some(symbol), Some(side), None, None,
          session,
          NO_PAYLOAD)
  }

  /** The store's n-th claim is accepted as the n-th claim of its order and as no other. */
  lemma StoreClaimIsAccepted(id: string, symbol: string, side: Side, session: Option<string>, n: nat, expected: nat,
                             other: string)
    ensures ClaimOk(StoreClaim(id, symbol, side, session, n), expected, other)
       <==> expected == n && other == id && !Blank(symbol)
  {
  }

  /** An accepted claim is the store's own but for what its payload may repeat, or the one backfilled as the first. */
  lemma AcceptedClaimIs(e: Event, expected: nat, id: string)
    requires ClaimOk(e, expected, id)
    ensures e.symbol.Some? && e.side.Some? && !Blank(e.symbol.value)
    ensures var written := StoreClaim(id, e.symbol.value, e.side.value, e.session, expected);
            || (expected == 0 && e.source == Reconciliation && e.authority == Synthetic && e.key == BackfillKey(id)
                && e.payload.claimOccurrence == Missing)
            || (&& e.source == written.source && e.authority == written.authority && e.key == written.key
                && (Nil(e.payload.claimOccurrence) || e.payload.claimOccurrence == Int(expected)))
    ensures e.quantity == None && e.price == None
  {
  }
}
