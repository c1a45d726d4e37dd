/** The booking tables and every step that changes them, each stated once.

    A step is one transaction. It either happens whole or, when it is refused,
    leaves the tables as they were. */
module Inn {
  import opened Common
  import opened Ledger
  import Pricing

  // ---------------------------------------------------------------- tables

  datatype Status = Pending | Confirmed | Cancelled | Expired

  /** A row of booking_rooms: one room over half-open dates. */
  datatype Stay = Stay(room: int, checkin: int, checkout: int)

  /** A row of bookings. `phone` remembers that the owner wrote the booking down;
      no step reads it, only statements about stays booked on the website do. */
  datatype Booking = Booking(
    status: Status,
    rooms: seq<Stay>,
    checkin: int,
    checkout: int,
    total: int,
    deposit: int,
    balance: int,
    paid: int,
    balanceChargeAt: Option<int>,
    intent: string,
    paymentStartedAt: Option<int>,
    customer: string,
    paymentMethod: string,
    chargeFailed: bool,
    warned: bool,
    phone: bool)
  {
    /** The amount the booking's own row says was due when it was made. */
    function DueAtBooking(): int {
      Pricing.Quote(total, total, 0, total, deposit, balance).ChargeAtBooking(balanceChargeAt.None?)
    }
  }

  datatype ClaimKind = Hold | Booked | Block

  /** What a row of room_occupancy says beside its room and span. */
  datatype Claim = Claim(kind: ClaimKind, booking: Option<Code>, expiresAt: Option<int>)

  datatype Message =
    | GuestConfirmation(code: Code, paidNow: int, outstanding: Option<int>, chargeOn: Option<int>)
    | OwnerPush(code: Code)
    | OwnerCopy(code: Code, paidNow: int)
    | PaymentRequest(code: Code, amount: int)
    | BalanceReceipt(code: Code, amount: int)
    | BalanceFailed(code: Code, owing: int)
    | BalanceWarning(code: Code, amount: int)
    | CancellationRefund(code: Code, refunded: int)

  datatype Settings = Settings(holdTtl: int, paymentGrace: int, processingRate: int)

  /** The exclusion constraint and the non-empty check make a room and its span a
      key of room_occupancy, so the table is a map from one to the claim on it. */
  type Occupied = map<Stay, Claim>

  /** `now` is an instant in minutes, `today` the civil date at the inn. Refund
      jobs are unique per booking and carry their target, zero for everything. */
  datatype Db = Db(
    bookings: map<Code, Booking>,
    occupied: Occupied,
    payments: seq<Payment>,
    events: set<string>,
    refundJobs: map<Code, int>,
    outbox: seq<Message>,
    settings: Settings,
    now: int,
    today: int)

  function PutBooking(db: Db, code: Code, b: Booking): Db {
    db.(bookings := db.bookings[code := b])
  }

  // ---------------------------------------------------------------- occupancy

  predicate Overlap(a: Stay, b: Stay) {
    a.room == b.room && a.checkin < b.checkout && b.checkin < a.checkout
  }

  predicate Taken(occupied: Occupied, s: Stay) {
    exists t :: t in occupied && Overlap(t, s)
  }

  /** occupancy.Create: the exclusion constraint answers, and None is ErrRoomTaken. */
  function ClaimRoom(occupied: Occupied, s: Stay, c: Claim): Option<Occupied> {
    if Taken(occupied, s) then None else Some(occupied[s := c])
  }

  predicate HasHold(occupied: Occupied, code: Code) {
    exists s :: s in occupied && occupied[s].kind == Hold && occupied[s].booking == Some(code)
  }

  predicate HasRows(occupied: Occupied, code: Code) {
    exists s :: s in occupied && occupied[s].booking == Some(code)
  }

  /** PromoteHoldToBooking: kind and expiry move in one statement. */
  function Promote(occupied: Occupied, code: Code): Occupied {
    map s | s in occupied ::
      if occupied[s].kind == Hold && occupied[s].booking == Some(code)
      then occupied[s].(kind := Booked, expiresAt := None)
      else occupied[s]
  }

  /** ReleaseBookingOccupancy. */
  function Release(occupied: Occupied, code: Code): Occupied {
    map s | s in occupied && occupied[s].booking != Some(code) :: occupied[s]
  }

  /** SweepExpiredHolds. */
  function WithoutExpiredHolds(occupied: Occupied, now: int): Occupied {
    map s | s in occupied
      && !(occupied[s].kind == Hold && occupied[s].expiresAt.Some? && occupied[s].expiresAt.value <= now)
      :: occupied[s]
  }

  /** The re-claim: each room in turn, stopping at the first that is gone and
      leaving the earlier ones claimed. */
  function Reclaim(occupied: Occupied, code: Code, rooms: seq<Stay>): (bool, Occupied)
    decreases |rooms|
  {
    if rooms == [] then (true, occupied)
    else
      match ClaimRoom(occupied, rooms[0], Claim(Booked, Some(code), None))
      case None => (false, occupied)
      case Some(claimed) => Reclaim(claimed, code, rooms[1..])
  }

  /** secureRoom: promote the hold, or find the stay already there, or take the
      rooms back the way any booker would. */
  function SecureRoom(occupied: Occupied, code: Code, rooms: seq<Stay>): (bool, Occupied) {
    if HasHold(occupied, code) then (true, Promote(occupied, code))
    else if HasRows(occupied, code) then (true, occupied)
    else if rooms == [] then (false, occupied)
    else Reclaim(occupied, code, rooms)
  }

  // ---------------------------------------------------------------- a charge

  /** A movement of money as the webhook or a job describes it. */
  datatype Charge = Charge(
    code: Code, stripeId: string, event: string, kind: Kind, amount: int,
    customer: string, paymentMethod: string, ownerCopy: bool)

  datatype ChargeError = StripeIdRequired | AmountNotPositive | KindUnknown | BookingNotFound

  datatype Reply =
    | StayConfirmed
    | AlreadyApplied
    | RefundDue(refund: int)
    | Underpaid(shortfall: int)
    | Rejected(error: ChargeError)

  /** What strings.TrimSpace takes off an end. */
  predicate IsSpace(c: char) {
    var n := c as int;
    || 0x09 <= n <= 0x0D || n == 0x20 || n == 0x85 || n == 0xA0 || n == 0x1680
    || 0x2000 <= n <= 0x200A || n == 0x2028 || n == 0x2029 || n == 0x202F || n == 0x205F || n == 0x3000
  }

  predicate Blank(s: string) {
    forall i :: 0 <= i < |s| ==> IsSpace(s[i])
  }

  function Invalid(c: Charge): Option<ChargeError> {
    if Blank(c.stripeId) then Some(StripeIdRequired)
    else if c.amount <= 0 then Some(AmountNotPositive)
    else if c.kind == Unknown then Some(KindUnknown)
    else None
  }

  predicate EventSeen(db: Db, c: Charge) {
    !Blank(c.event) && c.event in db.events
  }

  /** The event is noted in the transaction of the payment it describes. */
  function NoteEvent(db: Db, c: Charge): Db {
    if Blank(c.event) then db else db.(events := db.events + {c.event})
  }

  function SaveCard(b: Booking, c: Charge): Booking {
    if c.customer != "" && c.paymentMethod != "" then b.(customer := c.customer, paymentMethod := c.paymentMethod)
    else b
  }

  /** The ledger row, the gross and the card, which stay whatever becomes of the room. */
  function TakeMoney(db: Db, c: Charge): Db
    requires c.code in db.bookings
  {
    var b := db.bookings[c.code];
    PutBooking(db, c.code, SaveCard(b.(paid := b.paid + c.amount), c))
      .(payments := db.payments + [Payment(c.code, c.stripeId, c.kind, c.amount, Succeeded)])
  }

  function Shortfall(b: Booking, justPaid: int): int {
    if b.paid + justPaid < b.DueAtBooking() then b.DueAtBooking() - (b.paid + justPaid) else 0
  }

  function ConfirmationMail(code: Code, b: Booking, paidNow: int, ownerCopy: bool): seq<Message> {
    var outstanding := b.total - (b.paid + paidNow);
    [GuestConfirmation(code, paidNow, if outstanding > 0 then Some(outstanding) else None, b.balanceChargeAt),
      OwnerPush(code)]
    + if ownerCopy then [OwnerCopy(code, paidNow)] else []
  }

  /** QueueRefund: one job per booking, so a second request is absorbed. */
  function QueueRefund(db: Db, code: Code, target: int): Db {
    if code in db.refundJobs then db else db.(refundJobs := db.refundJobs[code := target])
  }

  function SetStatus(db: Db, code: Code, status: Status): Db
    requires code in db.bookings
  {
    PutBooking(db, code, db.bookings[code].(status := status))
  }

  /** refundDue: every room goes back, the stay is cancelled, everything
      collected is queued to return and the guest is told once. */
  function CloseOut(db: Db, code: Code, owed: int): Db
    requires code in db.bookings
  {
    var cancelled := SetStatus(db.(occupied := Release(db.occupied, code)), code, Cancelled);
    var queued := QueueRefund(cancelled, code, 0);
    queued.(outbox := queued.outbox + [CancellationRefund(code, owed)])
  }

  /** `found` is the row as it was read at the start of the transaction. */
  function ConfirmStay(db: Db, c: Charge, found: Booking): Db
    requires c.code in db.bookings
  {
    var confirmed := SetStatus(db, c.code, Confirmed);
    if found.status != Confirmed then
      confirmed.(outbox := db.outbox + ConfirmationMail(c.code, found, c.amount, c.ownerCopy))
    else if c.kind == Balance then
      confirmed.(outbox := db.outbox + [BalanceReceipt(c.code, c.amount)])
    else confirmed
  }

  /** What becomes of the stay once its money is on the row. */
  function SettleStay(db: Db, c: Charge, found: Booking): (Db, Reply)
    requires c.code in db.bookings
  {
    var (secured, occupied) := SecureRoom(db.occupied, c.code, found.rooms);
    var held := db.(occupied := occupied);
    if !secured || found.status == Cancelled
    then (CloseOut(held, c.code, found.paid + c.amount), RefundDue(found.paid + c.amount))
    else (ConfirmStay(held, c, found), StayConfirmed)
  }

  function ApplyCharge(db: Db, c: Charge): (Db, Reply)
    requires c.code in db.bookings
  {
    var found := db.bookings[c.code];
    var paid := TakeMoney(db, c);
    if Shortfall(found, c.amount) > 0 then (paid, Underpaid(Shortfall(found, c.amount)))
    else SettleStay(paid, c, found)
  }

  /** RecordCharge. */
  function ChargeStep(db: Db, c: Charge): (Db, Reply) {
    if Invalid(c).Some? then (db, Rejected(Invalid(c).value))
    else if c.code !in db.bookings then (db, Rejected(BookingNotFound))
    else if EventSeen(db, c) then (db, AlreadyApplied)
    else if HasRow(db.payments, c.stripeId, Succeeded) then (NoteEvent(db, c), AlreadyApplied)
    else ApplyCharge(NoteEvent(db, c), c)
  }

  /** RecordFailure: the status is not touched; a failed balance is flagged and the guest told. */
  function FailureStep(db: Db, c: Charge): (Db, Reply) {
    if Invalid(c).Some? then (db, Rejected(Invalid(c).value))
    else if c.code !in db.bookings then (db, Rejected(BookingNotFound))
    else if EventSeen(db, c) then (db, AlreadyApplied)
    else if HasRow(db.payments, c.stripeId, Failed) then (NoteEvent(db, c), AlreadyApplied)
    else
      var noted := NoteEvent(db, c).(payments := db.payments + [Payment(c.code, c.stripeId, c.kind, c.amount, Failed)]);
      (if c.kind == Balance then FlagFailedBalance(noted, c.code) else noted, AlreadyApplied)
  }

  /** flagUncollectable, and the tail of RecordFailure. */
  function FlagFailedBalance(db: Db, code: Code): Db
    requires code in db.bookings
  {
    var b := db.bookings[code];
    PutBooking(db, code, b.(chargeFailed := true)).(outbox := db.outbox + [BalanceFailed(code, b.total - b.paid)])
  }

  /** RecordRefund: the row is what the call is for; releasing and cancelling are idempotent. */
  function RefundStep(db: Db, c: Charge): (Db, Reply) {
    if Invalid(c).Some? then (db, Rejected(Invalid(c).value))
    else if c.code !in db.bookings then (db, Rejected(BookingNotFound))
    else if EventSeen(db, c) then (db, AlreadyApplied)
    else if HasRow(db.payments, c.stripeId, Succeeded) then (NoteEvent(db, c), AlreadyApplied)
    else
      var row := Payment(c.code, c.stripeId, Refund, c.amount, Succeeded);
      var noted := NoteEvent(db, c).(payments := db.payments + [row]);
      (SetStatus(noted.(occupied := Release(db.occupied, c.code)), c.code, Cancelled), RefundDue(c.amount))
  }

  // ---------------------------------------------------------------- booking

  const CODE_ATTEMPTS := 3

  /** The codes newCode would hand out, one per attempt. */
  type Candidates = codes: seq<Code> | |codes| == CODE_ATTEMPTS witness ["", "", ""]

  /** `offer` is the search's quote for the room, None when it was not offered. */
  datatype Request = Request(
    codes: Candidates, stay: Stay, offer: Option<Pricing.Quote>, expectedTotal: int,
    manual: bool, byLink: bool, ownerCopy: bool)

  datatype CreateError =
    | BadDates
    | RoomUnavailable
    | PriceChanged
    | RowRefused
    | TransactionAborted
    | RoomTaken
    | NothingOutstanding

  datatype Created = Made(code: Code) | NotMade(error: CreateError)

  /** The CHECK constraints on the money columns. */
  predicate QuoteAccepted(q: Pricing.Quote) {
    q.total >= 0 && q.deposit >= 0 && q.balance >= 0 && q.deposit + q.balance == q.total
  }

  /** A colliding code aborts the transaction, so the attempt after it fails with
      25P02 whatever code it carries. */
  function AllocateCode(bookings: map<Code, Booking>, codes: Candidates): Option<Code> {
    if codes[0] in bookings then None else Some(codes[0])
  }

  function NewBooking(db: Db, r: Request, q: Pricing.Quote): Booking {
    Booking(
      if r.manual then Confirmed else Pending, [r.stay], r.stay.checkin, r.stay.checkout,
      q.total, q.deposit, q.balance, 0,
      if Pricing.IsShortNotice(db.today, r.stay.checkin) || r.manual then None
      else Some(Pricing.BalanceChargeDate(r.stay.checkin)),
      "", None, "", "", false, false, r.manual)
  }

  /** A hold expires; a booking does not. */
  function NewClaim(db: Db, r: Request, code: Code): Claim {
    if r.manual then Claim(Booked, Some(code), None)
    else Claim(Hold, Some(code), Some(db.now + db.settings.holdTtl))
  }

  function PhoneMail(code: Code, b: Booking, r: Request): seq<Message> {
    ConfirmationMail(code, b, 0, r.ownerCopy)
    + if r.byLink then [PaymentRequest(code, b.total - b.paid)] else []
  }

  function CreateStep(db: Db, r: Request): (Db, Created) {
    if r.stay.checkout <= r.stay.checkin || r.stay.checkin < db.today then (db, NotMade(BadDates))
    else if r.offer.None? then (db, NotMade(RoomUnavailable))
    else if r.expectedTotal != 0 && r.expectedTotal != r.offer.value.total then (db, NotMade(PriceChanged))
    else if !QuoteAccepted(r.offer.value) then (db, NotMade(RowRefused))
    else
      match AllocateCode(db.bookings, r.codes)
      case None => (db, NotMade(TransactionAborted))
      case Some(code) =>
        match ClaimRoom(db.occupied, r.stay, NewClaim(db, r, code))
        case None => (db, NotMade(RoomTaken))
        case Some(occupied) =>
          var b := NewBooking(db, r, r.offer.value);
          if r.manual && r.byLink && b.total <= 0 then (db, NotMade(NothingOutstanding))
          else
            var mail := if r.manual then PhoneMail(code, b, r) else [];
            (PutBooking(db, code, b).(occupied := occupied, outbox := db.outbox + mail), Made(code))
  }

  // ---------------------------------------------------------------- paying

  datatype Opening = Opening(amount: int, kind: Kind, saveCard: bool)

  datatype OpenError = NoSuchBooking | NotPayable | NothingToPay | ProcessorFailed

  datatype Opened = Open(opening: Opening) | NotOpened(error: OpenError)

  /** open: which bookings can be paid for, and the amount, which comes from the
      booking's own row. */
  function OpenFor(db: Db, code: Code): Opened {
    if code !in db.bookings then NotOpened(NoSuchBooking)
    else
      var b := db.bookings[code];
      if !(b.status == Pending || (b.status == Confirmed && b.balanceChargeAt.None?)) then NotOpened(NotPayable)
      else
        var amount := b.DueAtBooking() - b.paid;
        if amount <= 0 then NotOpened(NothingToPay)
        else
          var saveCard := b.balanceChargeAt.Some?;
          Open(Opening(amount, if b.status == Confirmed then Balance else if saveCard then Deposit else Full, saveCard))
  }

  /** StartPayment. */
  function StartPaymentStep(db: Db, code: Code, intent: string): Db {
    if Blank(intent) || code !in db.bookings then db
    else PutBooking(db, code, db.bookings[code].(intent := intent, paymentStartedAt := Some(db.now)))
  }

  // ---------------------------------------------------------------- cancelling

  datatype CancelReply =
    | Cancellation(late: bool, retained: int, refund: int)
    | NoBooking
    | NotCancellable
    | StayUnderway

  function CancelStep(db: Db, code: Code, on: int): (Db, CancelReply) {
    if code !in db.bookings then (db, NoBooking)
    else
      var b := db.bookings[code];
      if b.status != Confirmed then (db, NotCancellable)
      else if on >= b.checkin then (db, StayUnderway)
      else
        var quote := Pricing.Quote(b.total, b.total, 0, b.total, b.deposit, b.balance);
        var late := Pricing.IsLateCancellation(on, b.checkin);
        var refund := quote.Refund(b.paid, late, db.settings.processingRate);
        var cancelled := SetStatus(db.(occupied := Release(db.occupied, code)), code, Cancelled);
        var queued := if refund > 0 then QueueRefund(cancelled, code, refund) else cancelled;
        (queued.(outbox := queued.outbox + [CancellationRefund(code, refund)]),
         Cancellation(late, quote.Retained(b.paid, late, db.settings.processingRate), refund))
  }

  // ---------------------------------------------------------------- sweeping

  function SweepHoldsStep(db: Db): Db {
    db.(occupied := WithoutExpiredHolds(db.occupied, db.now))
  }

  predicate Abandoned(db: Db, code: Code)
    requires code in db.bookings
  {
    var b := db.bookings[code];
    && b.status == Pending
    && !HasHold(db.occupied, code)
    && (b.paymentStartedAt.None? || b.paymentStartedAt.value <= db.now - db.settings.paymentGrace)
  }

  /** ExpireAbandonedBookings. */
  function ExpireStep(db: Db): Db {
    db.(bookings := map code | code in db.bookings ::
      if Abandoned(db, code) then db.bookings[code].(status := Expired) else db.bookings[code])
  }

  // ---------------------------------------------------------------- the owner

  function BlockStep(db: Db, s: Stay): (Db, bool) {
    if s.checkout <= s.checkin then (db, false)
    else
      match ClaimRoom(db.occupied, s, Claim(Block, None, None))
      case None => (db, false)
      case Some(occupied) => (db.(occupied := occupied), true)
  }

  /** DeleteBlock: a block and only a block. */
  function UnblockStep(db: Db, s: Stay): (Db, bool) {
    if s in db.occupied && db.occupied[s].kind == Block then (db.(occupied := db.occupied - {s}), true)
    else (db, false)
  }

  /** The console's manual refund: an amount somebody typed, queued like any other. */
  function ConsoleRefundStep(db: Db, code: Code, target: int): Db {
    if target <= 0 || code !in db.bookings || target > db.bookings[code].paid then db
    else QueueRefund(db, code, target)
  }

  // ---------------------------------------------------------------- the balance scans

  /** ListBookingsDueForBalanceCharge: which bookings the scan lists. */
  predicate BalanceDue(b: Booking, on: int) {
    && b.status == Confirmed
    && b.balanceChargeAt.Some?
    && b.balanceChargeAt.value <= on
    && b.paid < b.total
    && !b.chargeFailed
  }

  /** The two scans ask for the same bookings, the warning's leaving out those told. */
  datatype Query = ChargesDue | WarningsDue

  /** A warning goes out the day before the charge, so its scan looks a day ahead. */
  const WARNING_LEAD_DAYS := 1

  /** `on` is today, for either scan. */
  predicate Matches(b: Booking, q: Query, on: int) {
    match q
    case ChargesDue => BalanceDue(b, on)
    case WarningsDue => BalanceDue(b, on + WARNING_LEAD_DAYS) && !b.warned
  }

  function ChargeDate(b: Booking): int {
    if b.balanceChargeAt.Some? then b.balanceChargeAt.value else 0
  }

  ghost predicate DistinctCodes(due: seq<Code>) {
    forall i, j :: 0 <= i < j < |due| ==> due[i] != due[j]
  }

  ghost predicate ByChargeDate(bookings: map<Code, Booking>, due: seq<Code>)
    requires forall i :: 0 <= i < |due| ==> due[i] in bookings
  {
    forall i, j :: 0 <= i < j < |due| ==> ChargeDate(bookings[due[i]]) <= ChargeDate(bookings[due[j]])
  }

  /** What a scan answers: every matching booking once, in the order of charge dates. */
  ghost predicate IsAnswer(db: Db, q: Query, on: int, due: seq<Code>) {
    && DistinctCodes(due)
    && (forall i :: 0 <= i < |due| ==> due[i] in db.bookings && Matches(db.bookings[due[i]], q, on))
    && (forall code :: code in db.bookings && Matches(db.bookings[code], q, on) ==> code in due)
    && ByChargeDate(db.bookings, due)
  }

  /** warnOne: the warning and the note that it went out, together. */
  function WarnStep(db: Db, code: Code, amount: int): Db {
    if code !in db.bookings then db
    else PutBooking(db, code, db.bookings[code].(warned := true)).(outbox := db.outbox + [BalanceWarning(code, amount)])
  }

  function UncollectableStep(db: Db, code: Code): Db {
    if code !in db.bookings then db else FlagFailedBalance(db, code)
  }

  // ---------------------------------------------------------------- runs

  datatype Action =
    | Create(request: Request)
    | StartPayment(code: Code, intent: string)
    | DeliverCharge(charge: Charge)
    | DeliverFailure(charge: Charge)
    | DeliverRefund(charge: Charge)
    | Cancel(code: Code, on: int)
    | SweepHolds
    | ExpireAbandoned
    | BlockRoom(stay: Stay)
    | UnblockRoom(stay: Stay)
    | WarnBalance(code: Code, amount: int)
    | FlagUncollectable(code: Code)
    | AskForRefund(code: Code, target: int)
    | FinishRefundJob(code: Code)
    | ChangeSettings(settings: Settings)
    | Tick(minutes: nat, days: nat)

  function Next(db: Db, a: Action): Db {
    match a
    case Create(r) => CreateStep(db, r).0
    case StartPayment(code, intent) => StartPaymentStep(db, code, intent)
    case DeliverCharge(c) => ChargeStep(db, c).0
    case DeliverFailure(c) => FailureStep(db, c).0
    case DeliverRefund(c) => RefundStep(db, c).0
    case Cancel(code, on) => CancelStep(db, code, on).0
    case SweepHolds => SweepHoldsStep(db)
    case ExpireAbandoned => ExpireStep(db)
    case BlockRoom(s) => BlockStep(db, s).0
    case UnblockRoom(s) => UnblockStep(db, s).0
    case WarnBalance(code, amount) => WarnStep(db, code, amount)
    case FlagUncollectable(code) => UncollectableStep(db, code)
    case AskForRefund(code, target) => ConsoleRefundStep(db, code, target)
    case FinishRefundJob(code) => db.(refundJobs := db.refundJobs - {code})
    case ChangeSettings(settings) => db.(settings := settings)
    case Tick(minutes, days) => db.(now := db.now + minutes, today := db.today + days)
  }

  /** The tables after each prefix of a run is Run of that prefix. */
  function Run(db: Db, actions: seq<Action>): Db {
    if |actions| == 0 then db else Next(Run(db, actions[..|actions| - 1]), actions[|actions| - 1])
  }

  function Empty(settings: Settings, now: int, today: int): Db {
    Db(map[], map[], [], {}, map[], [], settings, now, today)
  }
}
