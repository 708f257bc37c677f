/**
 * The booking modal opened from a location's sheet: the hourly price read
 * from its display string, the total, and the select → confirm → success
 * steps driven by its buttons. A click on a button that is not rendered in
 * the current step, or is disabled, changes nothing.
 */
module Booking {
  import opened Wrappers
  import opened JsBuiltins

  // ------------------------------------------------------------- prices

  /**
   * `parseInt(price.replace(/[^\d]/g, ""))`: the number formed by the
   * decimal digits of the display string; `None` (`NaN`) when it has none.
   */
  function PricePerHour(price: string): (r: Option<int>)
    ensures r.None? <==> DigitsOnly(price) == []
    ensures r.Some? ==> r.value == DigitsValue(DigitsOnly(price))
  {
    ParseIntDigits(DigitsOnly(price));
    ParseInt(DigitsOnly(price))
  }

  /** `pricePerHour * hours`; `NaN` stays `NaN`. */
  function TotalPrice(price: string, hours: int): (r: Option<int>)
    ensures r.None? <==> PricePerHour(price).None?
    ensures r.Some? ==> r.value == PricePerHour(price).value * hours
  {
    match PricePerHour(price)
    case None => None
    case Some(p) => Some(p * hours)
  }

  predicate NoDigits(s: string) {
    forall i :: 0 <= i < |s| ==> !IsDigit(s[i])
  }

  /**
   * A price displayed as a number with digit-free text around it, such as
   * "₹40" or "₹40/hr", is read back as that number, and the total is that
   * number times the hours.
   */
  lemma DisplayedPrice(prefix: string, n: nat, suffix: string, hours: int)
    requires NoDigits(prefix) && NoDigits(suffix)
    ensures PricePerHour(prefix + Decimal(n) + suffix) == Some(n)
    ensures TotalPrice(prefix + Decimal(n) + suffix, hours) == Some(n * hours)
  {
    var d := Decimal(n);
    DigitsOnlyAppend(prefix + d, suffix);
    DigitsOnlyAppend(prefix, d);
    DigitsOnlyKeeps(prefix);
    DigitsOnlyKeeps(d);
    DigitsOnlyKeeps(suffix);
    assert DigitsOnly(prefix + d + suffix) == d;
    DecimalValue(n);
  }

  // ------------------------------------------------------------- steps

  datatype Step = Select | Confirm | Success

  /**
   * The modal's state. The booking timer is pending exactly while
   * `isProcessing` holds: it is started only by a confirmation, which is
   * disabled while processing, and only its firing clears the flag.
   */
  datatype Modal = Modal(step: Step, hours: int, vehicleNumber: string, isProcessing: bool)

  /**
   * What every reachable state satisfies: the hours lie in 1..24, and the
   * confirm step is only ever shown with a vehicle number that is not blank.
   */
  predicate Valid(m: Modal) {
    && 1 <= m.hours <= 24
    && (m.step == Confirm ==> Trim(m.vehicleNumber) != [])
  }

  /** The state the modal mounts in. */
  const Initial := Modal(Select, 1, "", false)

  /** The "+" button of the select step; disabled at 24. */
  function Increase(m: Modal): (r: Modal)
    ensures m.step == Select && m.hours < 24 ==> r == m.(hours := m.hours + 1)
    ensures !(m.step == Select && m.hours < 24) ==> r == m
  {
    if m.step == Select && m.hours < 24 then m.(hours := m.hours + 1) else m
  }

  /** The "−" button of the select step; disabled at 1. */
  function Decrease(m: Modal): (r: Modal)
    ensures m.step == Select && m.hours > 1 ==> r == m.(hours := m.hours - 1)
    ensures !(m.step == Select && m.hours > 1) ==> r == m
  {
    if m.step == Select && m.hours > 1 then m.(hours := m.hours - 1) else m
  }

  /** Typing in the vehicle field of the select step: the text is kept upper-cased. */
  function TypeVehicle(m: Modal, raw: string): (r: Modal)
    ensures m.step == Select ==> r == m.(vehicleNumber := Upper(raw)) && HasNoLowerCase(r.vehicleNumber)
    ensures m.step != Select ==> r == m
  {
    UpperIsUpper(raw);
    if m.step == Select then m.(vehicleNumber := Upper(raw)) else m
  }

  /** "Continue" of the select step; disabled while the trimmed vehicle number is empty. */
  function Continue(m: Modal): (r: Modal)
    ensures r.step == Confirm <==> m.step == Confirm || (m.step == Select && Trim(m.vehicleNumber) != [])
    ensures r == m.(step := r.step)
  {
    if m.step == Select && Trim(m.vehicleNumber) != [] then m.(step := Confirm) else m
  }

  /** "Back" of the confirm step; usable while processing too. */
  function Back(m: Modal): (r: Modal)
    ensures m.step == Confirm ==> r == m.(step := Select)
    ensures m.step != Confirm ==> r == m
  {
    if m.step == Confirm then m.(step := Select) else m
  }

  /** "Confirm" of the confirm step: starts processing; disabled while processing. */
  function ConfirmBooking(m: Modal): (r: Modal)
    ensures m.step == Confirm && !m.isProcessing ==> r == m.(isProcessing := true)
    ensures !(m.step == Confirm && !m.isProcessing) ==> r == m
  {
    if m.step == Confirm && !m.isProcessing then m.(isProcessing := true) else m
  }

  /** The booking timer fires: processing ends in the success step, whatever step is shown. */
  function TimerFires(m: Modal): (r: Modal)
    requires m.isProcessing
    ensures r == m.(step := Success, isProcessing := false)
  {
    m.(isProcessing := false, step := Success)
  }

  /** `handleClose` (close button, backdrop, "Done"): back to the first step with one hour and no vehicle; processing is left alone. */
  function Close(m: Modal): (r: Modal)
    ensures r.step == Select && r.hours == 1 && r.vehicleNumber == []
    ensures r.isProcessing == m.isProcessing
  {
    m.(step := Select, hours := 1, vehicleNumber := [])
  }

  /** Every transition keeps the modal in a valid state. */
  lemma TransitionsKeepValid(m: Modal, raw: string)
    requires Valid(m)
    ensures Valid(Increase(m)) && Valid(Decrease(m)) && Valid(TypeVehicle(m, raw))
    ensures Valid(Continue(m)) && Valid(Back(m)) && Valid(ConfirmBooking(m)) && Valid(Close(m))
    ensures m.isProcessing ==> Valid(TimerFires(m))
  {
  }

  /** The initial state is valid. */
  lemma InitialValid()
    ensures Valid(Initial)
  {
  }

  /** In the select step, one hour more and one hour less cancel out. */
  lemma IncreaseThenDecrease(m: Modal)
    requires m.step == Select && 1 <= m.hours < 24
    ensures Decrease(Increase(m)) == m
  {
  }

  /**
   * The happy path: a confirmation from the confirm step ends, once the
   * timer fires, in the success step with processing over and the hours and
   * vehicle number kept.
   */
  lemma ConfirmEndsInSuccess(m: Modal)
    requires m.step == Confirm && !m.isProcessing
    ensures ConfirmBooking(m).isProcessing
    ensures TimerFires(ConfirmBooking(m)) == m.(step := Success)
  {
  }

  /**
   * Closing does not cancel a pending booking: a modal closed while
   * processing shows the success step, with no vehicle number, once the
   * timer fires.
   */
  lemma CloseDoesNotCancel(m: Modal)
    requires m.isProcessing
    ensures Close(m).isProcessing
    ensures TimerFires(Close(m)) == Modal(Success, 1, [], false)
  {
  }

  /** The modal component's state, changed by its handlers. */
  class BookingModal {
    var step: Step
    var hours: int
    var vehicleNumber: string
    var isProcessing: bool

    function State(): Modal
      reads this
    {
      Modal(step, hours, vehicleNumber, isProcessing)
    }

    constructor ()
      ensures State() == Initial
    {
      step, hours, vehicleNumber, isProcessing := Select, 1, "", false;
    }

    method IncreaseHours()
      modifies this
      ensures State() == Increase(old(State()))
    {
      if step == Select && hours < 24 {
        hours := hours + 1;
      }
    }

    method DecreaseHours()
      modifies this
      ensures State() == Decrease(old(State()))
    {
      if step == Select && hours > 1 {
        hours := hours - 1;
      }
    }

    method SetVehicleNumber(raw: string)
      modifies this
      ensures State() == TypeVehicle(old(State()), raw)
    {
      if step == Select {
        vehicleNumber := Upper(raw);
      }
    }

    method ClickContinue()
      modifies this
      ensures State() == Continue(old(State()))
    {
      if step == Select && Trim(vehicleNumber) != [] {
        step := Confirm;
      }
    }

    method ClickBack()
      modifies this
      ensures State() == Back(old(State()))
    {
      if step == Confirm {
        step := Select;
      }
    }

    method ClickConfirm()
      modifies this
      ensures State() == ConfirmBooking(old(State()))
    {
      if step == Confirm && !isProcessing {
        isProcessing := true;
      }
    }

    method BookingTimer()
      requires isProcessing
      modifies this
      ensures State() == TimerFires(old(State()))
    {
      isProcessing := false;
      step := Success;
    }

    method HandleClose()
      modifies this
      ensures State() == Close(old(State()))
    {
      step := Select;
      hours := 1;
      vehicleNumber := "";
    }
  }
}
