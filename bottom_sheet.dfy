/**
 * The sheet that slides up for the selected location
 * (`ParkingBottomSheet`): its star rating, its availability badge and the
 * flags that decide whether it shows, how tall it is, whether reviews are
 * listed and whether the booking modal is open.
 */
module BottomSheet {
  import opened Wrappers
  import opened DriverTypes

  // -------------------------------------------------------------- stars

  datatype Star = FullStar | HalfStar | EmptyStar

  /**
   * The star at position `i` for a rating of `r` tenths: full below
   * `Math.floor(rating)`, half at that position when `rating % 1 >= 0.5`,
   * empty otherwise. JavaScript's `%` keeps the sign of the rating, so a
   * negative rating never has a half star.
   */
  function StarAt(i: nat, r: int): Star {
    var full := r / 10;
    var hasHalf := r >= 0 && r % 10 >= 5;
    if i < full then FullStar else if i == full && hasHalf then HalfStar else EmptyStar
  }

  /** The `StarRating` loop: five stars pushed in order. */
  method StarRating(ratingTenths: int) returns (stars: seq<Star>)
    ensures |stars| == 5
    ensures forall i :: 0 <= i < 5 ==> stars[i] == StarAt(i, ratingTenths)
  {
    var fullStars := ratingTenths / 10;
    var hasHalfStar := ratingTenths >= 0 && ratingTenths % 10 >= 5;
    stars := [];
    for i := 0 to 5
      invariant |stars| == i
      invariant forall j :: 0 <= j < i ==> stars[j] == StarAt(j, ratingTenths)
    {
      if i < fullStars {
        stars := stars + [FullStar];
      } else if i == fullStars && hasHalfStar {
        stars := stars + [HalfStar];
      } else {
        stars := stars + [EmptyStar];
      }
    }
  }

  /** What a star is worth, in tenths. */
  function Worth(s: Star): nat {
    match s
    case FullStar => 10
    case HalfStar => 5
    case EmptyStar => 0
  }

  /** What the first `k` stars for a rating of `r` tenths are worth together. */
  function ShownUpTo(k: nat, r: int): nat {
    if k == 0 then 0 else ShownUpTo(k - 1, r) + Worth(StarAt(k - 1, r))
  }

  /** The first `k` stars: as many full ones as fit, then at most one half star. */
  lemma {:induction false} ShownUpToValue(k: nat, r: int)
    requires r >= 0
    ensures ShownUpTo(k, r) ==
      (if k <= r / 10 then 10 * k
       else 10 * (r / 10) + (if r % 10 >= 5 then 5 else 0))
  {
    if k > 0 {
      ShownUpToValue(k - 1, r);
    }
  }

  /** A negative rating draws only empty stars. */
  lemma {:induction false} ShownNothing(k: nat, r: int)
    requires r < 0
    ensures ShownUpTo(k, r) == 0
  {
    if k > 0 {
      ShownNothing(k - 1, r);
    }
  }

  /**
   * The five stars show the rating rounded down to a half star: a rating
   * of 4.3 shows four full stars and 4.7 four and a half; ratings above 5
   * show five full stars and negative ones none.
   */
  lemma StarsShowRating(r: int)
    ensures 0 <= r <= 50 ==> ShownUpTo(5, r) == r - r % 5
    ensures r > 50 ==> ShownUpTo(5, r) == 50
    ensures r < 0 ==> ShownUpTo(5, r) == 0
  {
    if r >= 0 {
      ShownUpToValue(5, r);
    } else {
      ShownNothing(5, r);
    }
  }

  /** At most one half star is drawn, and only right after the full ones. */
  lemma OneHalfStarAtMost(r: int, i: nat, j: nat)
    requires StarAt(i, r) == HalfStar && StarAt(j, r) == HalfStar
    ensures i == j && i == r / 10
    ensures forall k :: 0 <= k < i ==> StarAt(k, r) == FullStar
  {
  }

  // ------------------------------------------------------ status badge

  /** `getStatusColor`; `None` is a sheet without a location. */
  function StatusColor(a: Option<Availability>): (c: string)
    ensures c == "bg-muted" <==> a.None?
  {
    match a
    case Some(High) => "bg-emerald-500"
    case Some(Medium) => "bg-amber-500"
    case Some(Low) => "bg-red-500"
    case None => "bg-muted"
  }

  /** `getStatusText`. */
  function StatusText(a: Option<Availability>): (t: string)
    ensures t == "Unknown" <==> a.None?
  {
    match a
    case Some(High) => "Many spots available"
    case Some(Medium) => "Limited availability"
    case Some(Low) => "Almost full"
    case None => "Unknown"
  }

  /** Different availabilities always read and look different. */
  lemma StatusDistinct(a: Option<Availability>, b: Option<Availability>)
    requires a != b
    ensures StatusText(a) != StatusText(b)
    ensures StatusColor(a) != StatusColor(b)
  {
    assert "Many spots available"[0] != "Limited availability"[0];
    assert "Many spots available"[0] != "Almost full"[0];
    assert "Limited availability"[0] != "Almost full"[0];
    assert "bg-emerald-500"[3] != "bg-amber-500"[3];
    assert "bg-emerald-500"[3] != "bg-red-500"[3];
    assert "bg-amber-500"[3] != "bg-red-500"[3];
  }

  // -------------------------------------------------------------- sheet

  /** The sheet's props and state. */
  class ParkingBottomSheet {
    var spot: Option<DriverSpot>
    var isVisible: bool
    var showReviews: bool
    var isExpanded: bool
    var showBooking: bool

    /** The sheet renders nothing without a location. */
    predicate Renders()
      reads this
    {
      spot.Some?
    }

    constructor ()
      ensures spot.None? && !Renders()
      ensures !isVisible && !showReviews && !isExpanded && !showBooking
    {
      spot := None;
      isVisible, showReviews, isExpanded, showBooking := false, false, false, false;
    }

    /**
     * A new `spot` prop and the effect it triggers: a location opens the
     * sheet afresh, collapsed, without reviews and with the booking modal
     * closed; no location hides it and keeps the other flags.
     */
    method SpotChanged(s: Option<DriverSpot>)
      modifies this
      ensures spot == s && (Renders() <==> s.Some?)
      ensures s.Some? ==> isVisible && !isExpanded && !showReviews && !showBooking
      ensures s.None? ==> !isVisible && isExpanded == old(isExpanded)
                          && showReviews == old(showReviews) && showBooking == old(showBooking)
    {
      spot := s;
      if s.Some? {
        isVisible := true;
        showReviews := false;
        isExpanded := false;
        showBooking := false;
      } else {
        isVisible := false;
      }
    }

    /**
     * `toggleExpand` (the reviews link and the "More" button): flips the
     * height; expanding also lists the reviews, collapsing leaves them as
     * they were. Without a location there is no button.
     */
    method ToggleExpand()
      modifies this
      ensures old(spot).Some? ==> isExpanded == !old(isExpanded)
      ensures old(spot).Some? ==> showReviews == (old(showReviews) || !old(isExpanded))
      ensures old(spot).None? ==> isExpanded == old(isExpanded) && showReviews == old(showReviews)
      ensures spot == old(spot) && isVisible == old(isVisible) && showBooking == old(showBooking)
    {
      if spot.None? {
        return;
      }
      var wasExpanded := isExpanded;
      isExpanded := !wasExpanded;
      if !wasExpanded {
        showReviews := true;
      }
    }

    /** "Book Now" opens the booking modal. */
    method OpenBooking()
      modifies this
      ensures showBooking == (old(showBooking) || old(spot).Some?)
      ensures spot == old(spot) && isVisible == old(isVisible)
      ensures isExpanded == old(isExpanded) && showReviews == old(showReviews)
    {
      if spot.Some? {
        showBooking := true;
      }
    }

    /** The modal's `onClose` closes it. */
    method CloseBooking()
      modifies this
      ensures !showBooking
      ensures spot == old(spot) && isVisible == old(isVisible)
      ensures isExpanded == old(isExpanded) && showReviews == old(showReviews)
    {
      showBooking := false;
    }
  }
}
